/** Clock edges and the reset sequence: `toggle_neg_edge`, `toggle_pos_edge`,
    `toggle_clk` and `reset_rtlsim` of py/pyxsi_utils.py. */
module Clocking {
  import opened Binary
  import opened Simulator

  /** Simulator time units run after each clock edge. */
  const HalfPeriod: nat := 5000

  /** The clock name every edge function defaults to. */
  const DefaultClock: string := "ap_clk"

  /** One half period: drive the clock to `level`, then run. */
  function HalfCycle(sim: Sim, clk: string, level: nat): seq<Event>
    requires Resolvable(sim, clk)
  {
    [WriteOf(sim, clk, level), Run(HalfPeriod)]
  }

  lemma HalfCycleFrame(a: Sim, b: Sim, clk: string, level: nat)
    requires Widths(a) == Widths(b) && Resolvable(a, clk)
    ensures Resolvable(b, clk) && HalfCycle(a, clk, level) == HalfCycle(b, clk, level)
  {
    WriteOfFrame(a, b, clk, level);
  }

  /** Write one signal and run half a period. */
  function DriveAndRun(sim: Sim, clk: string, level: nat): (r: Result<Sim>)
    ensures r.Ok? <==> Resolvable(sim, clk)
    ensures r.Fail? ==> r == Fail(SignalNotFound(clk), sim)
    ensures r.Ok? ==>
      && Recorded(sim, r.value)
      && r.value.trace == sim.trace + HalfCycle(sim, clk, level)
      && r.value.ports == sim.ports[Port(sim, clk) := Encode(level, Width(sim, clk))]
  {
    var s :- WriteSignal(sim, clk, level);
    WriteRecorded(sim, clk, level);
    var r := Advance(s, HalfPeriod);
    RecordedTrans(sim, s, r);
    Ok(r)
  }

  /** `toggle_neg_edge`: drive the clock low and run half a period; no other
      port is touched. */
  function NegEdge(sim: Sim, clk: string): (r: Result<Sim>)
    ensures r.Ok? <==> Resolvable(sim, clk)
    ensures r.Fail? ==> r == Fail(SignalNotFound(clk), sim)
    ensures r.Ok? ==>
      && Recorded(sim, r.value)
      && r.value.trace == sim.trace + HalfCycle(sim, clk, 0)
      && r.value.ports == sim.ports[Port(sim, clk) := Encode(0, Width(sim, clk))]
      && ToNat(r.value.ports[Port(sim, clk)]) == 0
  {
    DriveAndRun(sim, clk, 0)
  }

  /** `toggle_pos_edge`: drive the clock high, run half a period, and only then
      apply the staged writes in order, a delta cycle after the rising edge. */
  function PosEdge(sim: Sim, clk: string, writes: seq<(string, int)>): (r: Result<Sim>)
    ensures r.Ok? <==> Resolvable(sim, clk) && WritesAllowed(sim, writes)
    ensures !Resolvable(sim, clk) ==> r == Fail(SignalNotFound(clk), sim)
    ensures r.Fail? ==> r.error.SignalNotFound? || r.error.NegativeValue?
    ensures r.Ok? ==>
      && Recorded(sim, r.value)
      && r.value.trace == sim.trace + HalfCycle(sim, clk, 1) + WriteEvents(sim, writes)
    ensures r.Ok? && |writes| == 0 ==>
      r.value.ports == sim.ports[Port(sim, clk) := Encode(1, Width(sim, clk))]
  {
    var s :- DriveAndRun(sim, clk, 1);
    WriteEventsFrame(sim, s, writes);
    if |writes| == 0 then
      Ok(s)
    else
      var r := ApplyWrites(s, writes);
      if r.Ok? then
        RecordedTrans(sim, s, r.value);
        r
      else
        r
  }

  /** The events of one full period followed by the staged writes. */
  function ToggleEvents(sim: Sim, clk: string, writes: seq<(string, int)>): seq<Event>
    requires Resolvable(sim, clk) && WritesAllowed(sim, writes)
  {
    HalfCycle(sim, clk, 0) + HalfCycle(sim, clk, 1) + WriteEvents(sim, writes)
  }

  /** The first four events of a period drive only the clock; the rest are the
      staged writes in order. */
  lemma ToggleEventAt(sim: Sim, clk: string, writes: seq<(string, int)>, j: nat)
    requires Resolvable(sim, clk) && WritesAllowed(sim, writes)
    requires j < |ToggleEvents(sim, clk, writes)|
    ensures |ToggleEvents(sim, clk, writes)| == 4 + |writes|
    ensures j < 4 ==>
      (ToggleEvents(sim, clk, writes)[j].Run? || ToggleEvents(sim, clk, writes)[j].port == Port(sim, clk))
    ensures j >= 4 ==> ToggleEvents(sim, clk, writes)[j] == WriteOf(sim, writes[j - 4].0, writes[j - 4].1)
  {
    WriteEventsIndex(sim, writes);
  }

  /** `toggle_clk`: one full clock period, falling edge then rising edge. */
  function Toggle(sim: Sim, clk: string, writes: seq<(string, int)>): (r: Result<Sim>)
    ensures r.Ok? <==> Resolvable(sim, clk) && WritesAllowed(sim, writes)
    ensures !Resolvable(sim, clk) ==> r == Fail(SignalNotFound(clk), sim)
    ensures r.Ok? ==>
      && Recorded(sim, r.value)
      && r.value.trace == sim.trace + ToggleEvents(sim, clk, writes)
  {
    var s :- NegEdge(sim, clk);
    HalfCycleFrame(sim, s, clk, 1);
    WriteEventsFrame(sim, s, writes);
    var r := PosEdge(s, clk, writes);
    if r.Ok? then
      RecordedTrans(sim, s, r.value);
      ToggleTrace(sim.trace, s.trace, r.value.trace, HalfCycle(sim, clk, 0),
                  HalfCycle(sim, clk, 1), WriteEvents(sim, writes));
      r
    else
      r
  }

  lemma ToggleTrace(t0: seq<Event>, t1: seq<Event>, t2: seq<Event>, a: seq<Event>, b: seq<Event>, c: seq<Event>)
    requires t1 == t0 + a && t2 == t1 + b + c
    ensures t2 == t0 + (a + b + c)
  {
    assert t0 + a + b + c == t0 + (a + b + c);
  }

  /** The level that holds the design in reset: low for an active-low line. */
  function AssertLevel(activeLow: bool): nat
  {
    if activeLow then 0 else 1
  }

  function ReleaseLevel(activeLow: bool): nat
  {
    if activeLow then 1 else 0
  }

  const NoWrites: seq<(string, int)> := []

  /** The single write staged for the third rising edge of a reset. */
  function Release(rst: string, activeLow: bool): seq<(string, int)>
  {
    [(rst, ReleaseLevel(activeLow) as int)]
  }

  /** One full clock period with nothing staged. */
  function Period(sim: Sim, clk: string): seq<Event>
    requires Resolvable(sim, clk)
  {
    HalfCycle(sim, clk, 0) + HalfCycle(sim, clk, 1)
  }

  lemma PeriodIsToggleWithoutWrites(sim: Sim, clk: string)
    requires Resolvable(sim, clk)
    ensures WritesAllowed(sim, NoWrites) && ToggleEvents(sim, clk, NoWrites) == Period(sim, clk)
  {
    assert WriteEvents(sim, NoWrites) == [];
  }

  lemma ReleaseEvents(sim: Sim, clk: string, rst: string, activeLow: bool)
    requires Resolvable(sim, clk) && Resolvable(sim, rst)
    ensures WritesAllowed(sim, Release(rst, activeLow))
    ensures ToggleEvents(sim, clk, Release(rst, activeLow))
         == Period(sim, clk) + [WriteOf(sim, rst, ReleaseLevel(activeLow))]
  {
    assert WriteEvents(sim, Release(rst, activeLow)) == [WriteOf(sim, rst, ReleaseLevel(activeLow))];
  }

  /** What `reset_rtlsim` records: clock low and reset asserted, two full
      periods, a third period whose rising edge is followed by the release of
      the reset line, and one more full period. */
  function ResetEvents(sim: Sim, rst: string, activeLow: bool, clk: string): seq<Event>
    requires Resolvable(sim, clk) && Resolvable(sim, rst)
  {
    [WriteOf(sim, clk, 0), WriteOf(sim, rst, AssertLevel(activeLow))]
    + Period(sim, clk) + Period(sim, clk)
    + (Period(sim, clk) + [WriteOf(sim, rst, ReleaseLevel(activeLow))])
    + Period(sim, clk)
  }

  /** A toggle issued later on a handle driven from `sim` records the events it
      would have recorded on `sim` itself. */
  lemma ToggleAfter(sim: Sim, s: Sim, clk: string, writes: seq<(string, int)>)
    requires Recorded(sim, s) && Resolvable(sim, clk) && WritesAllowed(sim, writes)
    ensures Toggle(s, clk, writes).Ok?
    ensures Recorded(sim, Toggle(s, clk, writes).value)
    ensures Toggle(s, clk, writes).value.trace == s.trace + ToggleEvents(sim, clk, writes)
  {
    FindDependsOnNames(sim, s, clk);
    WriteEventsFrame(sim, s, writes);
    HalfCycleFrame(sim, s, clk, 0);
    HalfCycleFrame(sim, s, clk, 1);
    RecordedTrans(sim, s, Toggle(s, clk, writes).value);
  }

  /** `reset_rtlsim`. */
  function Reset(sim: Sim, rst: string, activeLow: bool, clk: string): (r: Result<Sim>)
    ensures r.Ok? <==> Resolvable(sim, clk) && Resolvable(sim, rst)
    ensures !Resolvable(sim, clk) ==> r == Fail(SignalNotFound(clk), sim)
    ensures Resolvable(sim, clk) && !Resolvable(sim, rst) ==> r.Fail? && r.error == SignalNotFound(rst)
    ensures r.Ok? ==>
      && Recorded(sim, r.value)
      && r.value.trace == sim.trace + ResetEvents(sim, rst, activeLow, clk)
  {
    var s1 :- WriteSignal(sim, clk, 0);
    FindDependsOnNames(sim, s1, rst);
    var s2 :- WriteSignal(s1, rst, AssertLevel(activeLow));
    var r := ResetCycles(sim, rst, activeLow, clk, s1, s2);
    Ok(r)
  }

  /** The four clock periods of a reset, after the clock and reset writes. */
  function ResetCycles(sim: Sim, rst: string, activeLow: bool, clk: string, s1: Sim, s2: Sim): (r: Sim)
    requires Resolvable(sim, clk) && Resolvable(sim, rst)
    requires WriteSignal(sim, clk, 0) == Ok(s1)
    requires WriteSignal(s1, rst, AssertLevel(activeLow)) == Ok(s2)
    ensures Recorded(sim, r)
    ensures r.trace == sim.trace + ResetEvents(sim, rst, activeLow, clk)
  {
    WriteRecorded(sim, clk, 0);
    WriteRecorded(s1, rst, AssertLevel(activeLow));
    RecordedTrans(sim, s1, s2);
    WriteOfFrame(sim, s1, rst, AssertLevel(activeLow));
    PeriodIsToggleWithoutWrites(sim, clk);
    ReleaseEvents(sim, clk, rst, activeLow);
    ToggleAfter(sim, s2, clk, NoWrites);
    var s3 := Toggle(s2, clk, NoWrites).value;
    ToggleAfter(sim, s3, clk, NoWrites);
    var s4 := Toggle(s3, clk, NoWrites).value;
    ToggleAfter(sim, s4, clk, Release(rst, activeLow));
    var s5 := Toggle(s4, clk, Release(rst, activeLow)).value;
    ToggleAfter(sim, s5, clk, NoWrites);
    var s6 := Toggle(s5, clk, NoWrites).value;
    ResetChain(sim.trace, s1.trace, s2.trace, s3.trace, s4.trace, s5.trace, s6.trace,
               WriteOf(sim, clk, 0), WriteOf(sim, rst, AssertLevel(activeLow)), Period(sim, clk),
               Period(sim, clk) + [WriteOf(sim, rst, ReleaseLevel(activeLow))]);
    s6
  }

  lemma ResetChain(t0: seq<Event>, t1: seq<Event>, t2: seq<Event>, t3: seq<Event>, t4: seq<Event>,
                   t5: seq<Event>, t6: seq<Event>, e1: Event, e2: Event, p: seq<Event>, q: seq<Event>)
    requires t1 == t0 + [e1] && t2 == t1 + [e2]
    requires t3 == t2 + p && t4 == t3 + p && t5 == t4 + q && t6 == t5 + p
    ensures t6 == t0 + ([e1, e2] + p + p + q + p)
  {
    assert t2 == t0 + [e1, e2];
    assert t3 == t0 + ([e1, e2] + p);
    assert t4 == t0 + ([e1, e2] + p + p);
    assert t5 == t0 + ([e1, e2] + p + p + q);
  }

  lemma ResetEventsFrame(a: Sim, b: Sim, rst: string, activeLow: bool, clk: string)
    requires Widths(a) == Widths(b) && Resolvable(a, clk) && Resolvable(a, rst)
    ensures Resolvable(b, clk) && Resolvable(b, rst)
    ensures ResetEvents(a, rst, activeLow, clk) == ResetEvents(b, rst, activeLow, clk)
  {
    WriteOfFrame(a, b, clk, 0);
    WriteOfFrame(a, b, rst, AssertLevel(activeLow));
    WriteOfFrame(a, b, rst, ReleaseLevel(activeLow));
    HalfCycleFrame(a, b, clk, 0);
    HalfCycleFrame(a, b, clk, 1);
  }

  /** Resetting twice leaves every port as resetting once does. */
  lemma ResetIdempotent(sim: Sim, rst: string, activeLow: bool, clk: string)
    requires Reset(sim, rst, activeLow, clk).Ok?
    ensures Reset(Reset(sim, rst, activeLow, clk).value, rst, activeLow, clk).Ok?
    ensures Reset(Reset(sim, rst, activeLow, clk).value, rst, activeLow, clk).value.ports
         == Reset(sim, rst, activeLow, clk).value.ports
  {
    var s := Reset(sim, rst, activeLow, clk).value;
    var e := ResetEvents(sim, rst, activeLow, clk);
    assert s.trace[|sim.trace|..] == e;
    ResetEventsFrame(sim, s, rst, activeLow, clk);
    var s' := Reset(s, rst, activeLow, clk).value;
    assert s'.trace[|s.trace|..] == e;
    ReplayTwice(sim.ports, e);
  }

  /** The reset line holds its asserted level from the moment it is written
      through three rising clock edges, and is released only after the third;
      one more full period follows the release. */
  lemma ResetHoldsThenReleases(sim: Sim, rst: string, activeLow: bool, clk: string)
    requires Resolvable(sim, clk) && Resolvable(sim, rst) && Port(sim, rst) != Port(sim, clk)
    ensures var e := ResetEvents(sim, rst, activeLow, clk);
      && |e| == 19
      && e[2..14] == Period(sim, clk) + Period(sim, clk) + Period(sim, clk)
      && e[15..] == Period(sim, clk)
      && (forall k :: 2 <= k <= 14 ==> HoldsAt(Replay(sim.ports, e[..k]), Port(sim, rst),
            Encode(AssertLevel(activeLow), Width(sim, rst))))
      && (forall k :: 15 <= k <= 19 ==> HoldsAt(Replay(sim.ports, e[..k]), Port(sim, rst),
            Encode(ReleaseLevel(activeLow), Width(sim, rst))))
  {
    var e := ResetEvents(sim, rst, activeLow, clk);
    var p := Period(sim, clk);
    var r := Port(sim, rst);
    var held := Encode(AssertLevel(activeLow), Width(sim, rst));
    var released := Encode(ReleaseLevel(activeLow), Width(sim, rst));
    ResetShape(WriteOf(sim, clk, 0), WriteOf(sim, rst, AssertLevel(activeLow)), p,
               WriteOf(sim, rst, ReleaseLevel(activeLow)), e);
    assert forall x :: x in p ==> !WritesTo(x, r);
    ReplayWrite(sim.ports, e, 1, r, held);
    HoldsThrough(sim.ports, e, r, held, 2, 14);
    ReplayWrite(sim.ports, e, 14, r, released);
    HoldsThrough(sim.ports, e, r, released, 15, 19);
  }

  /** The layout of the reset events: two writes, three periods, the release,
      one more period. */
  lemma ResetShape(a: Event, b: Event, p: seq<Event>, d: Event, e: seq<Event>)
    requires |p| == 4 && e == [a, b] + p + p + (p + [d]) + p
    ensures |e| == 19 && e[1] == b && e[14] == d
    ensures e[2..14] == p + p + p && e[15..] == p
    ensures forall j :: 2 <= j < 14 || 15 <= j < 19 ==> e[j] in p
  {
    assert e[2..14] == p + p + p;
    assert e[15..] == p;
    forall j | 2 <= j < 14 || 15 <= j < 19
      ensures e[j] in p
    {
      if j < 6 {
        assert e[j] == p[j - 2];
      } else if j < 10 {
        assert e[j] == p[j - 6];
      } else if j < 14 {
        assert e[j] == p[j - 10];
      } else {
        assert e[j] == p[j - 15];
      }
    }
  }
}
