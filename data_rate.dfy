/** The clients' data-rate meter: it counts bytes and packets between reports and, once
    more than `update_rate` seconds have passed since the window opened, reports the bit
    rate and packet rate in scaled units and starts a new window. Times are integer
    nanoseconds from a monotonic counter; rates are real numbers. */
module DataRates {
  import opened Wrappers
  import opened Seqs

  const KIBI: real := 1024.0
  const MEBI: real := 1048576.0

  datatype DataUnit = Bps | Kbps | Mbps
  datatype PacketUnit = PacketsPerSecond | KpacketsPerSecond

  /** A rate expressed in a unit. */
  datatype Scaled<U> = Scaled(value: real, unit: U)

  function DataFactor(u: DataUnit): real {
    match u
    case Bps => 1.0
    case Kbps => KIBI
    case Mbps => MEBI
  }

  /** The unit selection as the meter writes it: the kilobit test comes first, so any
      rate above a mebibit is also above a kibibit and is reported in Kbps. */
  function ScaleBitsAsWritten(rate: real): Scaled<DataUnit> {
    if rate > KIBI then Scaled(rate / KIBI, Kbps)
    else if rate > MEBI then Scaled(rate / MEBI, Mbps)
    else Scaled(rate, Bps)
  }

  /** The Mbps branch of the written selection is dead: no rate is ever reported in
      Mbps, and two mebibits per second come out as 2048 Kbps. */
  lemma ScaleBitsAsWrittenNeverMegabits(rate: real)
    ensures ScaleBitsAsWritten(rate).unit != Mbps
    ensures ScaleBitsAsWritten(2.0 * MEBI) == Scaled(2048.0, Kbps)
  {
  }

  /** The intended selection: the largest unit the rate exceeds one of. */
  function ScaleBits(rate: real): (s: Scaled<DataUnit>)
    ensures s.value * DataFactor(s.unit) == rate
    ensures s.unit == Mbps <==> rate > MEBI
    ensures s.unit == Kbps <==> KIBI < rate <= MEBI
    ensures s.unit != Bps ==> 1.0 < s.value
    ensures s.unit == Kbps ==> s.value <= KIBI
  {
    if rate > MEBI then Scaled(rate / MEBI, Mbps)
    else if rate > KIBI then Scaled(rate / KIBI, Kbps)
    else Scaled(rate, Bps)
  }

  /** Packet rates above a thousand per second are shown in thousands. */
  function ScalePackets(rate: real): (s: Scaled<PacketUnit>)
    ensures s.unit == KpacketsPerSecond <==> rate > 1000.0
    ensures s.unit == KpacketsPerSecond ==> s.value * 1000.0 == rate
    ensures s.unit == PacketsPerSecond ==> s.value == rate
  {
    if rate > 1000.0 then Scaled(rate / 1000.0, KpacketsPerSecond) else Scaled(rate, PacketsPerSecond)
  }

  /** The bit rate as the meter computes it: the byte count is multiplied by eight, and
      the quotient is multiplied by eight once more. */
  function BitRateAsWritten(bytes: nat, seconds: real): real
    requires seconds > 0.0
  {
    (bytes * 8) as real / seconds * 8.0
  }

  /** The written bit rate is eight times the true one: 20 bytes in one second are
      shown as 1280 bits per second. */
  lemma BitRateAsWrittenIsEightfold(bytes: nat, seconds: real)
    requires seconds > 0.0
    ensures BitRateAsWritten(bytes, seconds) == 8.0 * BitRate(bytes, seconds)
    ensures BitRateAsWritten(20, 1.0) == 1280.0 && BitRate(20, 1.0) == 160.0
  {
  }

  /** The intended bit rate: the bits of the window over its duration. */
  function BitRate(bytes: nat, seconds: real): (r: real)
    requires seconds > 0.0
    ensures r * seconds == (8 * bytes) as real
  {
    (bytes * 8) as real / seconds
  }

  /** One closed window: the bytes and packets counted in it and its length. */
  datatype Window = Window(bytes: nat, packets: nat, seconds: real)

  /** The line printed for a window. */
  datatype Report = Report(data: Scaled<DataUnit>, packets: Scaled<PacketUnit>)

  function ReportOf(w: Window): (r: Report)
    requires w.seconds > 0.0
    ensures r.data.value * DataFactor(r.data.unit) * w.seconds == (8 * w.bytes) as real
  {
    Report(ScaleBits(BitRate(w.bytes, w.seconds)), ScalePackets(w.packets as real / w.seconds))
  }

  /** The meter's counters and the start of its window (absent before the first call). */
  datatype Meter = Meter(bytecount: nat, count: nat, last: Option<int>)

  const FRESH := Meter(0, 0, None)

  /** The seconds from `last` to `now` in nanoseconds. */
  function Seconds(last: int, now: int): real {
    (now - last) as real / 1_000_000_000.0
  }

  /** The meter after one call, and the window it closes, if any. */
  datatype Tick = Tick(meter: Meter, closed: Option<Window>)

  /** One call of update: count the bytes and the packet; the first call only opens the
      window; a later call more than `updateRate` seconds after its opening closes it
      and opens the next one at `now`. */
  function Step(m: Meter, updateRate: real, now: int, n: nat): (t: Tick)
    requires updateRate >= 0.0
    ensures t.closed.Some? ==> t.closed.value.seconds > updateRate
    ensures t.closed.Some? ==> t.closed.value.packets == m.count + 1 && t.closed.value.bytes == m.bytecount + n
  {
    var bytes := m.bytecount + n;
    var count := m.count + 1;
    if m.last.None? then Tick(Meter(bytes, count, Some(now)), None)
    else if Seconds(m.last.value, now) > updateRate then
      Tick(Meter(0, 0, Some(now)), Some(Window(bytes, count, Seconds(m.last.value, now))))
    else Tick(Meter(bytes, count, m.last), None)
  }

  /** One call of update: the time it reads and the count it is given. */
  datatype Call = Call(now: int, n: nat)

  datatype History = History(meter: Meter, windows: seq<Window>)

  function Run(m: Meter, updateRate: real, calls: seq<Call>): History
    requires updateRate >= 0.0
    decreases |calls|
  {
    if calls == [] then History(m, [])
    else
      var h := Run(m, updateRate, calls[..|calls| - 1]);
      var c := calls[|calls| - 1];
      var t := Step(h.meter, updateRate, c.now, c.n);
      History(t.meter, h.windows + if t.closed.Some? then [t.closed.value] else [])
  }

  function Packets(ws: seq<Window>): (s: seq<nat>)
    ensures |s| == |ws| && forall i :: 0 <= i < |ws| ==> s[i] == ws[i].packets
  {
    seq(|ws|, i requires 0 <= i < |ws| => ws[i].packets)
  }

  function ByteCounts(ws: seq<Window>): (s: seq<nat>)
    ensures |s| == |ws| && forall i :: 0 <= i < |ws| ==> s[i] == ws[i].bytes
  {
    seq(|ws|, i requires 0 <= i < |ws| => ws[i].bytes)
  }

  function Counts(calls: seq<Call>): (s: seq<nat>)
    ensures |s| == |calls| && forall i :: 0 <= i < |calls| ==> s[i] == calls[i].n
  {
    seq(|calls|, i requires 0 <= i < |calls| => calls[i].n)
  }

  /** No packet is lost: every call is counted either in a closed window or in the
      open one. */
  lemma {:induction false} RunCountsEveryCall(m: Meter, updateRate: real, calls: seq<Call>)
    requires updateRate >= 0.0
    ensures var h := Run(m, updateRate, calls); Sum(Packets(h.windows)) + h.meter.count == m.count + |calls|
    decreases |calls|
  {
    if calls != [] {
      var p := calls[..|calls| - 1];
      RunCountsEveryCall(m, updateRate, p);
      var h := Run(m, updateRate, p);
      var c := calls[|calls| - 1];
      var t := Step(h.meter, updateRate, c.now, c.n);
      var extra := if t.closed.Some? then [t.closed.value] else [];
      assert Packets(h.windows + extra) == Packets(h.windows) + Packets(extra);
      SumAppend(Packets(h.windows), Packets(extra));
    }
  }

  /** No byte is lost: every count passed to the meter is in a closed window or in the
      open one. */
  lemma {:induction false} RunCountsEveryByte(m: Meter, updateRate: real, calls: seq<Call>)
    requires updateRate >= 0.0
    ensures var h := Run(m, updateRate, calls);
      Sum(ByteCounts(h.windows)) + h.meter.bytecount == m.bytecount + Sum(Counts(calls))
    decreases |calls|
  {
    if calls != [] {
      var p := calls[..|calls| - 1];
      RunCountsEveryByte(m, updateRate, p);
      var h := Run(m, updateRate, p);
      var c := calls[|calls| - 1];
      var t := Step(h.meter, updateRate, c.now, c.n);
      var extra := if t.closed.Some? then [t.closed.value] else [];
      assert ByteCounts(h.windows + extra) == ByteCounts(h.windows) + ByteCounts(extra);
      assert Counts(calls) == Counts(p) + [c.n];
      SumAppend(ByteCounts(h.windows), ByteCounts(extra));
      SumAppend(Counts(p), [c.n]);
    }
  }

  predicate AllOutlast(ws: seq<Window>, updateRate: real) {
    forall i :: 0 <= i < |ws| ==> ws[i].seconds > updateRate
  }

  /** Every closed window lasted longer than `updateRate`. */
  lemma {:induction false} RunWindowsOutlastTheRate(m: Meter, updateRate: real, calls: seq<Call>)
    requires updateRate >= 0.0
    ensures AllOutlast(Run(m, updateRate, calls).windows, updateRate)
    decreases |calls|
  {
    if calls != [] {
      var p := calls[..|calls| - 1];
      RunWindowsOutlastTheRate(m, updateRate, p);
      var h := Run(m, updateRate, p);
      var c := calls[|calls| - 1];
      var t := Step(h.meter, updateRate, c.now, c.n);
      assert Run(m, updateRate, calls).windows == h.windows + if t.closed.Some? then [t.closed.value] else [];
    }
  }

  /** A fresh meter reports nothing on its first call. */
  lemma FirstCallOnlyOpensTheWindow(updateRate: real, now: int, n: nat)
    requires updateRate >= 0.0
    ensures Step(FRESH, updateRate, now, n) == Tick(Meter(n, 1, Some(now)), None)
  {
  }

  /** The meter object: its counters are updated in place by each call. */
  class DataRate {
    var bytecount: nat
    var count: nat
    var last: Option<int>
    const updateRate: real
    /** The counter value at construction (kept, never read). */
    const start: int

    constructor (updateRate: real, now: int)
      requires updateRate >= 0.0
      ensures Meter(bytecount, count, last) == FRESH
      ensures this.updateRate == updateRate && start == now
    {
      bytecount := 0;
      count := 0;
      last := None;
      this.updateRate := updateRate;
      start := now;
    }

    /** update(n) at time `now`; the report is the printed line, if one is printed. */
    method Update(now: int, n: nat) returns (report: Option<Report>)
      requires updateRate >= 0.0
      modifies this
      ensures var t := Step(old(Meter(bytecount, count, last)), updateRate, now, n);
        Meter(bytecount, count, last) == t.meter
        && report == if t.closed.Some? then Some(ReportOf(t.closed.value)) else None
    {
      bytecount := bytecount + n;
      count := count + 1;
      report := None;
      if last.None? {
        last := Some(now);
        return;
      }
      var elapsed := Seconds(last.value, now);
      if elapsed > updateRate {
        var w := Window(bytecount, count, elapsed);
        last := Some(now);
        bytecount := 0;
        count := 0;
        report := Some(ReportOf(w));
      }
    }
  }
}
