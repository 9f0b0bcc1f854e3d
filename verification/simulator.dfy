/** The simulator handle and the signal accessors `_find_signal`, `_read_signal`
    and `_write_signal` of py/pyxsi_utils.py.

    The foreign simulator object is abstracted as its port map (port name to
    current value string) plus an append-only trace of what the driver asked of
    it: `set_port_value` calls and `run` calls. */
module Simulator {
  import opened Binary

  datatype Event = Write(port: string, value: Word) | Run(duration: nat)

  datatype Sim = Sim(ports: map<string, Word>, trace: seq<Event>)

  /** The exceptions the driver raises. */
  datatype Error =
    | SignalNotFound(name: string)
    | NegativeValue(name: string, value: int)
    | Stalled(threshold: int)

  /** An operation either completes, or raises and leaves the handle in the
      state it had reached when the exception was raised. */
  datatype Result<T> = Ok(value: T) | Fail(error: Error, sim: Sim) {
    predicate IsFailure() {
      Fail?
    }

    function PropagateFailure<U>(): Result<U>
      requires Fail?
    {
      Fail(error, sim)
    }

    function Extract(): T
      requires Ok?
    {
      value
    }
  }

  /** Python's `str.lower`, on the ASCII letters that port names use. */
  function LowerChar(c: char): char
  {
    if 'A' <= c <= 'Z' then (c as int + 32) as char else c
  }

  function Lower(s: string): (r: string)
    ensures |r| == |s|
  {
    if |s| == 0 then "" else [LowerChar(s[0])] + Lower(s[1..])
  }

  lemma {:induction false} LowerLast(s: string)
    requires |s| > 0
    ensures Lower(s)[|s| - 1] == LowerChar(s[|s| - 1])
  {
    if |s| > 1 {
      LowerLast(s[1..]);
      assert Lower(s)[|s| - 1] == Lower(s[1..])[|s| - 2];
    }
  }

  /** The widths of the ports: what a write keeps fixed. */
  function Widths(sim: Sim): map<string, nat>
  {
    map p | p in sim.ports :: |sim.ports[p]|
  }

  predicate Resolvable(sim: Sim, name: string)
  {
    name in sim.ports || Lower(name) in sim.ports
  }

  /** `_find_signal`: the exact name if it is a port, else its lowercase form if
      that is a port, else `SignalNotFound`. */
  function FindSignal(sim: Sim, name: string): (r: Result<string>)
    ensures r.Ok? <==> Resolvable(sim, name)
    ensures r.Ok? ==> r.value in sim.ports && (r.value == name || r.value == Lower(name))
    ensures name in sim.ports ==> r == Ok(name)
    ensures name !in sim.ports && r.Ok? ==> r.value == Lower(name)
    ensures r.Fail? ==> r == Fail(SignalNotFound(name), sim)
  {
    if name in sim.ports then Ok(name)
    else if Lower(name) in sim.ports then Ok(Lower(name))
    else Fail(SignalNotFound(name), sim)
  }

  /** The port a resolvable name refers to. */
  function Port(sim: Sim, name: string): (p: string)
    requires Resolvable(sim, name)
    ensures p in sim.ports
  {
    FindSignal(sim, name).value
  }

  function Width(sim: Sim, name: string): (w: nat)
    requires Resolvable(sim, name)
    ensures w >= 1
  {
    |sim.ports[Port(sim, name)]|
  }

  /** The port a name resolves to ends in the name's last character, or in its
      lowercase form. */
  lemma PortEnding(sim: Sim, name: string)
    requires Resolvable(sim, name) && |name| > 0
    ensures |Port(sim, name)| == |name|
    ensures var c := Port(sim, name)[|name| - 1];
      c == name[|name| - 1] || c == LowerChar(name[|name| - 1])
  {
    LowerLast(name);
  }

  /** Resolution looks only at the set of port names. */
  lemma FindDependsOnNames(a: Sim, b: Sim, name: string)
    requires a.ports.Keys == b.ports.Keys
    ensures Resolvable(a, name) <==> Resolvable(b, name)
    ensures Resolvable(a, name) ==> Port(a, name) == Port(b, name)
  {
  }

  /** Case fallback: when the design's ports are all lowercase, a name resolves
      exactly when its lowercase form is a port, and resolves to that form. */
  lemma FindInLowercaseDesign(sim: Sim, name: string)
    requires forall p :: p in sim.ports ==> Lower(p) == p
    ensures Resolvable(sim, name) <==> Lower(name) in sim.ports
    ensures Resolvable(sim, name) ==> Port(sim, name) == Lower(name)
  {
  }

  /** `_read_signal`: the port's binary string read as an unsigned number. */
  function ReadSignal(sim: Sim, name: string): (r: Result<nat>)
    ensures r.Ok? <==> Resolvable(sim, name)
    ensures r.Ok? ==> r.value < Pow2(Width(sim, name))
    ensures r.Ok? ==> Encode(r.value, Width(sim, name)) == sim.ports[Port(sim, name)]
    ensures r.Fail? ==> r == Fail(SignalNotFound(name), sim)
  {
    var p :- FindSignal(sim, name);
    ReadThenEncode(sim.ports[p]);
    Ok(ToNat(sim.ports[p]))
  }

  /** The value a resolvable signal reads as. */
  function Value(sim: Sim, name: string): nat
    requires Resolvable(sim, name)
  {
    ToNat(sim.ports[Port(sim, name)])
  }

  /** `set_port_value`: overwrite one port and record the write. */
  function SetPort(sim: Sim, p: string, w: Word): Sim
  {
    Sim(sim.ports[p := w], sim.trace + [Write(p, w)])
  }

  /** `_write_signal`: resolve the name, take the width from the port's current
      string, refuse negative values, then store the low bits of the value. */
  function WriteSignal(sim: Sim, name: string, v: int): (r: Result<Sim>)
    ensures r.Ok? <==> Resolvable(sim, name) && v >= 0
    ensures !Resolvable(sim, name) ==> r == Fail(SignalNotFound(name), sim)
    ensures Resolvable(sim, name) && v < 0 ==> r == Fail(NegativeValue(name, v), sim)
    ensures r.Ok? ==>
      var p := Port(sim, name);
      && r.value.ports.Keys == sim.ports.Keys
      && Widths(r.value) == Widths(sim)
      && r.value.ports == sim.ports[p := r.value.ports[p]]
      && r.value.ports[p] == Encode(v, Width(sim, name))
      && ToNat(r.value.ports[p]) == v % Pow2(Width(sim, name))
      && r.value.trace == sim.trace + [WriteOf(sim, name, v)]
  {
    var p :- FindSignal(sim, name);
    var w := |sim.ports[p]|;
    if v < 0 then Fail(NegativeValue(name, v), sim)
    else
      var r := SetPort(sim, p, Encode(v, w));
      assert Widths(r) == Widths(sim);
      Ok(r)
  }

  /** Writing a value that fits the port and reading it back yields the value. */
  lemma WriteThenRead(sim: Sim, name: string, v: nat)
    requires Resolvable(sim, name) && v < Pow2(Width(sim, name))
    ensures WriteSignal(sim, name, v).Ok?
    ensures ReadSignal(WriteSignal(sim, name, v).value, name) == Ok(v)
  {
    var s := WriteSignal(sim, name, v).value;
    FindDependsOnNames(sim, s, name);
    SmallMod(v, Pow2(Width(sim, name)));
  }

  /** A write leaves every signal that resolves to another port reading as before. */
  lemma WriteLeavesOtherSignals(sim: Sim, name: string, v: int, other: string)
    requires WriteSignal(sim, name, v).Ok?
    requires Resolvable(sim, other) && Port(sim, other) != Port(sim, name)
    ensures ReadSignal(WriteSignal(sim, name, v).value, other) == ReadSignal(sim, other)
  {
    var s := WriteSignal(sim, name, v).value;
    FindDependsOnNames(sim, s, other);
  }

  /** The effect of one recorded event on a port map. */
  function Apply(ports: map<string, Word>, e: Event): map<string, Word>
  {
    match e
    case Write(p, w) => ports[p := w]
    case Run(_) => ports
  }

  /** The port map that results from replaying recorded events in order. */
  function Replay(ports: map<string, Word>, t: seq<Event>): map<string, Word>
    decreases |t|
  {
    if |t| == 0 then ports else Apply(Replay(ports, t[..|t| - 1]), t[|t| - 1])
  }

  lemma {:induction false} ReplayAppend(ports: map<string, Word>, a: seq<Event>, b: seq<Event>)
    ensures Replay(ports, a + b) == Replay(Replay(ports, a), b)
    decreases |b|
  {
    if |b| == 0 {
      assert a + b == a;
    } else {
      assert (a + b)[..|a + b| - 1] == a + b[..|b| - 1];
      ReplayAppend(ports, a, b[..|b| - 1]);
    }
  }

  /** The last value written to each port by a sequence of events. */
  function LastWrites(t: seq<Event>): map<string, Word>
    decreases |t|
  {
    if |t| == 0 then map[] else Apply(LastWrites(t[..|t| - 1]), t[|t| - 1])
  }

  lemma {:induction false} ReplayOverlays(ports: map<string, Word>, t: seq<Event>)
    ensures Replay(ports, t) == ports + LastWrites(t)
    decreases |t|
  {
    if |t| > 0 {
      ReplayOverlays(ports, t[..|t| - 1]);
    }
  }

  /** Replaying the same events twice leaves the ports as replaying them once:
      every written port ends at its last write either way. */
  lemma ReplayTwice(ports: map<string, Word>, t: seq<Event>)
    ensures Replay(Replay(ports, t), t) == Replay(ports, t)
  {
    ReplayOverlays(ports, t);
    ReplayOverlays(Replay(ports, t), t);
    var l := LastWrites(t);
    assert (ports + l) + l == ports + l;
  }

  predicate WritesTo(e: Event, p: string)
  {
    e.Write? && e.port == p
  }

  /** A port that no event writes keeps its value through a replay. */
  lemma {:induction false} ReplayUntouched(ports: map<string, Word>, t: seq<Event>, p: string)
    requires p in ports
    requires forall j :: 0 <= j < |t| ==> !WritesTo(t[j], p)
    ensures p in Replay(ports, t) && Replay(ports, t)[p] == ports[p]
    decreases |t|
  {
    if |t| > 0 {
      var t' := t[..|t| - 1];
      assert forall j :: 0 <= j < |t'| ==> t'[j] == t[j];
      ReplayUntouched(ports, t', p);
      assert !WritesTo(t[|t| - 1], p);
    }
  }

  /** A port that some event writes, and that every event writing it sets to
      `w`, holds `w` after the replay. */
  lemma {:induction false} ReplaySameWrites(ports: map<string, Word>, t: seq<Event>, p: string, w: Word, j: nat)
    requires j < |t| && t[j] == Write(p, w)
    requires forall k :: 0 <= k < |t| && WritesTo(t[k], p) ==> t[k].value == w
    ensures p in Replay(ports, t) && Replay(ports, t)[p] == w
    decreases |t|
  {
    var n := |t| - 1;
    if j < n && !WritesTo(t[n], p) {
      var t' := t[..n];
      assert forall k :: 0 <= k < |t'| ==> t'[k] == t[k];
      ReplaySameWrites(ports, t', p, w, j);
    }
  }

  /** Port `p` exists in `ports` and holds `w`. */
  predicate HoldsAt(ports: map<string, Word>, p: string, w: Word)
  {
    p in ports && ports[p] == w
  }

  /** A write shows in the port map as soon as it has been replayed. */
  lemma ReplayWrite(ports: map<string, Word>, t: seq<Event>, k: nat, p: string, w: Word)
    requires k < |t| && t[k] == Write(p, w)
    ensures HoldsAt(Replay(ports, t[..k + 1]), p, w)
  {
    assert t[..k + 1][..k] == t[..k];
  }

  /** A value a port holds after the first `from` events survives every longer
      prefix, up to `to` events, that does not write the port again. */
  lemma HoldsThrough(ports: map<string, Word>, t: seq<Event>, p: string, w: Word, from: nat, to: nat)
    requires from <= to <= |t| && HoldsAt(Replay(ports, t[..from]), p, w)
    requires forall j :: from <= j < to ==> !WritesTo(t[j], p)
    ensures forall k :: from <= k <= to ==> HoldsAt(Replay(ports, t[..k]), p, w)
  {
    forall k | from <= k <= to
      ensures HoldsAt(Replay(ports, t[..k]), p, w)
    {
      var pre, seg := t[..from], t[from..k];
      assert t[..k] == pre + seg;
      ReplayAppend(ports, pre, seg);
      assert forall j :: 0 <= j < |seg| ==> seg[j] == t[from + j];
      ReplayUntouched(Replay(ports, pre), seg, p);
    }
  }

  /** `after` is `before` driven further: its trace extends the earlier one, its
      port map is exactly what the new events write, and no port changed width. */
  predicate Recorded(before: Sim, after: Sim)
  {
    && |before.trace| <= |after.trace|
    && after.trace[..|before.trace|] == before.trace
    && after.ports == Replay(before.ports, after.trace[|before.trace|..])
    && after.ports.Keys == before.ports.Keys
    && Widths(after) == Widths(before)
  }

  lemma RecordedTrans(a: Sim, b: Sim, c: Sim)
    requires Recorded(a, b) && Recorded(b, c)
    ensures Recorded(a, c)
  {
    var ab := b.trace[|a.trace|..];
    var bc := c.trace[|b.trace|..];
    assert c.trace[|a.trace|..] == ab + bc;
    ReplayAppend(a.ports, ab, bc);
  }

  lemma WriteRecorded(sim: Sim, name: string, v: int)
    requires WriteSignal(sim, name, v).Ok?
    ensures Recorded(sim, WriteSignal(sim, name, v).value)
  {
    var s := WriteSignal(sim, name, v).value;
    var t := s.trace[|sim.trace|..];
    assert t == [s.trace[|sim.trace|]];
    assert t[..0] == [];
  }

  /** `sim.run(duration)`: advance simulated time. How the design evaluates is
      not modelled here; its visible outcome is supplied by `Settle`. */
  function Advance(sim: Sim, duration: nat): (r: Sim)
    ensures Recorded(sim, r)
    ensures r.trace == sim.trace + [Run(duration)]
  {
    var r := Sim(sim.ports, sim.trace + [Run(duration)]);
    assert r.trace[|sim.trace|..] == [Run(duration)];
    assert [Run(duration)][..0] == [];
    r
  }

  /** An observed value is adopted only for a port of the design with the same width. */
  predicate Fits(sim: Sim, observed: map<string, Word>, p: string)
  {
    p in sim.ports && p in observed && |observed[p]| == |sim.ports[p]|
  }

  /** The values the design drives, as observed after a `run`: a port takes its
      observed value, every other port keeps its value, and no port changes width. */
  function Settle(sim: Sim, observed: map<string, Word>): (r: Sim)
    ensures r.ports.Keys == sim.ports.Keys
    ensures Widths(r) == Widths(sim)
    ensures r.trace == sim.trace
    ensures forall p :: p in sim.ports ==>
      r.ports[p] == (if Fits(sim, observed, p) then observed[p] else sim.ports[p])
  {
    var r := Sim(map p | p in sim.ports :: if Fits(sim, observed, p) then observed[p] else sim.ports[p], sim.trace);
    assert forall p :: p in r.ports ==> |r.ports[p]| == |sim.ports[p]|;
    r
  }

  /** Every `(name, value)` pair can be written: the name resolves and the value
      is not negative. */
  predicate WritesAllowed(sim: Sim, ws: seq<(string, int)>)
  {
    forall k :: 0 <= k < |ws| ==> Resolvable(sim, ws[k].0) && ws[k].1 >= 0
  }

  /** The event `_write_signal` records for writing `v` to `name`. */
  function WriteOf(sim: Sim, name: string, v: nat): Event
    requires Resolvable(sim, name)
  {
    Write(Port(sim, name), Encode(v, Width(sim, name)))
  }

  /** The events `_write_signal` records for each pair, in order. */
  function WriteEvents(sim: Sim, ws: seq<(string, int)>): seq<Event>
    requires WritesAllowed(sim, ws)
    decreases |ws|
  {
    if |ws| == 0 then []
    else [WriteOf(sim, ws[0].0, ws[0].1)] + WriteEvents(sim, ws[1..])
  }

  /** The `k`-th event records the `k`-th write. */
  lemma {:induction false} WriteEventsIndex(sim: Sim, ws: seq<(string, int)>)
    requires WritesAllowed(sim, ws)
    ensures |WriteEvents(sim, ws)| == |ws|
    ensures forall k :: 0 <= k < |ws| ==> WriteEvents(sim, ws)[k] == WriteOf(sim, ws[k].0, ws[k].1)
    decreases |ws|
  {
    if |ws| > 0 {
      WritesAllowedCons(sim, ws);
      WriteEventsIndex(sim, ws[1..]);
      assert forall k :: 1 <= k < |ws| ==> ws[k] == ws[1..][k - 1];
    }
  }

  /** What a write records depends only on the port widths. */
  lemma WriteOfFrame(a: Sim, b: Sim, name: string, v: nat)
    requires Widths(a) == Widths(b) && Resolvable(a, name)
    ensures Resolvable(b, name) && WriteOf(a, name, v) == WriteOf(b, name, v)
  {
    assert a.ports.Keys == Widths(a).Keys == Widths(b).Keys == b.ports.Keys;
    FindDependsOnNames(a, b, name);
    assert Widths(a)[Port(a, name)] == Width(a, name);
  }

  /** Which writes are allowed and what they record depend only on the widths. */
  lemma {:induction false} WriteEventsFrame(a: Sim, b: Sim, ws: seq<(string, int)>)
    requires Widths(a) == Widths(b)
    ensures WritesAllowed(a, ws) <==> WritesAllowed(b, ws)
    ensures WritesAllowed(a, ws) ==> WriteEvents(a, ws) == WriteEvents(b, ws)
    decreases |ws|
  {
    assert a.ports.Keys == Widths(a).Keys == Widths(b).Keys == b.ports.Keys;
    forall k | 0 <= k < |ws|
      ensures Resolvable(a, ws[k].0) <==> Resolvable(b, ws[k].0)
    {
      FindDependsOnNames(a, b, ws[k].0);
    }
    if |ws| > 0 && WritesAllowed(a, ws) {
      var p := Port(a, ws[0].0);
      FindDependsOnNames(a, b, ws[0].0);
      assert Widths(a)[p] == Width(a, ws[0].0);
      WriteEventsFrame(a, b, ws[1..]);
    }
  }

  /** Apply `(name, value)` pairs in order with `_write_signal`, as the loop
      over a `signals_to_write` dictionary does; the first failing write raises. */
  function ApplyWrites(sim: Sim, ws: seq<(string, int)>): (r: Result<Sim>)
    ensures r.Ok? <==> WritesAllowed(sim, ws)
    ensures r.Ok? ==> Recorded(sim, r.value) && r.value.trace == sim.trace + WriteEvents(sim, ws)
    ensures r.Fail? ==> r.error.SignalNotFound? || r.error.NegativeValue?
    ensures r.Fail? && (forall k :: 0 <= k < |ws| ==> ws[k].1 >= 0) ==> r.error.SignalNotFound?
    decreases |ws|
  {
    if |ws| == 0 then
      assert sim.trace[|sim.trace|..] == [];
      Ok(sim)
    else
      WritesAllowedCons(sim, ws);
      var s :- WriteSignal(sim, ws[0].0, ws[0].1);
      WriteRecorded(sim, ws[0].0, ws[0].1);
      WriteEventsFrame(sim, s, ws[1..]);
      var r := ApplyWrites(s, ws[1..]);
      if r.Ok? then
        RecordedTrans(sim, s, r.value);
        ConsTrace(sim.trace, WriteOf(sim, ws[0].0, ws[0].1), WriteEvents(sim, ws[1..]), s.trace, r.value.trace);
        r
      else
        r
  }

  lemma WritesAllowedCons(sim: Sim, ws: seq<(string, int)>)
    requires |ws| > 0
    ensures WritesAllowed(sim, ws) <==>
      Resolvable(sim, ws[0].0) && ws[0].1 >= 0 && WritesAllowed(sim, ws[1..])
  {
    assert forall k :: 1 <= k < |ws| ==> ws[k] == ws[1..][k - 1];
  }

  /** Appending one event and then a batch is appending their concatenation. */
  lemma ConsTrace(t0: seq<Event>, e: Event, rest: seq<Event>, mid: seq<Event>, last: seq<Event>)
    requires mid == t0 + [e] && last == mid + rest
    ensures last == t0 + ([e] + rest)
  {
    assert (t0 + [e]) + rest == t0 + ([e] + rest);
  }
}
