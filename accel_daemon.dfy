/** The acquisition engine of the daemon: the per-device state captured by the
    data-ready callback (previous trigger time, rate window, triggered latch), the
    fixed-period polling loop, and the rule by which start-up keeps or skips each
    configured device. Time is an abstract count of microseconds. */
module Acquisition {
  import opened Wrappers
  import opened Bytes
  import opened AccelRecord
  import opened Seqs

  /** The rate window closes once more than one second has elapsed. */
  const RATE_WINDOW_MICROS: nat := 1_000_000

  /** Microseconds from `since` to `now`, saturating at zero as Instant::duration_since does. */
  function Elapsed(since: int, now: int): (d: nat)
    ensures since <= now ==> d == now - since
    ensures now < since ==> d == 0
  {
    if since <= now then now - since else 0
  }

  /** `as u32` on a count: keeps its value modulo 2^32. */
  function ToU32(n: nat): (w: u32)
    ensures n < 0x1_0000_0000 ==> w == n
  {
    n % 0x1_0000_0000
  }

  // ---------------------------------------------------------------------------
  // Callback mode

  /** What one invocation of the data-ready callback sees: the time it starts, the
      outcome of the normalized read, and how many subscribers the channel has. */
  datatype TriggerEvent = TriggerEvent(now: int, read: Option<F32x3>, receivers: nat)

  /** The gap stored in the reading of trigger i: 0 for the first trigger, otherwise the
      truncated microseconds since the previous trigger, whether or not that earlier
      trigger's read succeeded. */
  function TriggerGap(h: seq<TriggerEvent>, i: nat): u32
    requires i < |h|
  {
    if i == 0 then 0 else ToU32(Elapsed(h[i - 1].now, h[i].now))
  }

  /** The publish rule: a reading is sent exactly when the read succeeded and the
      channel has a subscriber, and it carries the device index, the gap and the read
      vector. */
  function Publish(index: u32, gap: u32, read: Option<F32x3>, receivers: nat): (r: Option<AccelData>)
    ensures r.Some? <==> read.Some? && receivers > 0
    ensures r.Some? ==> r.value.idx == index && r.value.gap == gap && F32x3(r.value.x, r.value.y, r.value.z) == read.value
  {
    if read.Some? && receivers > 0 then Some(FromTriple(index, gap, read.value)) else None
  }

  /** The reading trigger i sends, if any. */
  function Emitted(index: u32, h: seq<TriggerEvent>, i: nat): seq<AccelData>
    requires i < |h|
  {
    var r := Publish(index, TriggerGap(h, i), h[i].read, h[i].receivers);
    if r.Some? then [r.value] else []
  }

  /** Everything the callbacks of one device send, in trigger order. */
  function Published(index: u32, h: seq<TriggerEvent>): seq<AccelData> {
    if h == [] then [] else Published(index, h[..|h| - 1]) + Emitted(index, h, |h| - 1)
  }

  /** The rate window: its start (absent until the first callback) and the callbacks
      counted since. */
  datatype RateWindow = RateWindow(last: Option<int>, count: nat)

  /** The window after one callback, and the count it logs if it closes the window. */
  datatype RateUpdate = RateUpdate(window: RateWindow, logged: Option<nat>)

  /** One callback's update of the rate window: install the start if absent, count the
      callback, and close the window when more than a second has passed. */
  function RateStep(w: RateWindow, now: int): (u: RateUpdate)
    ensures u.logged.Some? <==> w.last.Some? && Elapsed(w.last.value, now) > RATE_WINDOW_MICROS
    ensures u.logged.Some? ==> u.logged.value == w.count + 1 && u.window == RateWindow(Some(now), 0)
    ensures u.logged.None? ==> u.window.count == w.count + 1
    ensures u.logged.None? ==> u.window.last == if w.last.None? then Some(now) else w.last
  {
    var start := if w.last.None? then now else w.last.value;
    if Elapsed(start, now) > RATE_WINDOW_MICROS then RateUpdate(RateWindow(Some(now), 0), Some(w.count + 1))
    else RateUpdate(RateWindow(Some(start), w.count + 1), None)
  }

  function Opt<T>(o: Option<T>): (s: seq<T>)
    ensures |s| <= 1
  {
    if o.Some? then [o.value] else []
  }

  /** The window after a sequence of callbacks, and the counts logged along the way. */
  datatype RateHistory = RateHistory(window: RateWindow, logged: seq<nat>)

  function RateRun(w: RateWindow, times: seq<int>): RateHistory {
    if times == [] then RateHistory(w, [])
    else
      var before := RateRun(w, times[..|times| - 1]);
      var u := RateStep(before.window, times[|times| - 1]);
      RateHistory(u.window, before.logged + Opt(u.logged))
  }

  /** Every callback is counted exactly once: in a logged window or in the open one. */
  lemma {:induction false} RateRunCountsEveryCallback(w: RateWindow, times: seq<int>)
    ensures Sum(RateRun(w, times).logged) + RateRun(w, times).window.count == w.count + |times|
  {
    if times != [] {
      var before := RateRun(w, times[..|times| - 1]);
      RateRunCountsEveryCallback(w, times[..|times| - 1]);
      var u := RateStep(before.window, times[|times| - 1]);
      SumAppend(before.logged, Opt(u.logged));
      assert Sum([before.window.count + 1]) == before.window.count + 1;
    }
  }

  predicate NonDecreasing(times: seq<int>) {
    forall i, j :: 0 <= i <= j < |times| ==> times[i] <= times[j]
  }

  /** With a monotonic clock, after every callback the window has started, not after
      that callback, and no more than one second before it. */
  lemma {:induction false} RateWindowStaysWithinASecond(times: seq<int>)
    requires times != [] && NonDecreasing(times)
    ensures var w := RateRun(RateWindow(None, 0), times).window;
      && w.last.Some?
      && w.last.value <= times[|times| - 1]
      && times[|times| - 1] - w.last.value <= RATE_WINDOW_MICROS
  {
    var prefix := times[..|times| - 1];
    var now := times[|times| - 1];
    if prefix != [] {
      assert NonDecreasing(prefix);
      RateWindowStaysWithinASecond(prefix);
      assert prefix[|prefix| - 1] <= now;
    }
  }

  /** The gap computed from the "past" slot: 0 when it is empty. */
  function CallbackGap(past: Option<int>, now: int): u32 {
    if past.None? then 0 else ToU32(Elapsed(past.value, now))
  }

  /** The cells the callback closure of one device owns. */
  datatype Slot = Slot(past: Option<int>, triggered: bool, rate: RateWindow)

  /** The cells as start-up creates them. */
  const FRESH: Slot := Slot(None, false, RateWindow(None, 0))

  /** What one callback leaves behind and produces. */
  datatype Outcome = Outcome(slot: Slot, published: Option<AccelData>, logged: Option<nat>)

  /** One callback: latch `triggered`, swap the trigger time into the slot, update the
      rate window, and publish by the publish rule with the gap from the old slot. */
  function Step(index: u32, s: Slot, e: TriggerEvent): Outcome {
    var u := RateStep(s.rate, e.now);
    Outcome(Slot(Some(e.now), true, u.window), Publish(index, CallbackGap(s.past, e.now), e.read, e.receivers), u.logged)
  }

  /** The cells after a history of callbacks, what was sent and what was logged. */
  datatype RunResult = RunResult(slot: Slot, sent: seq<AccelData>, logged: seq<nat>)

  function Run(index: u32, s: Slot, h: seq<TriggerEvent>): RunResult {
    if h == [] then RunResult(s, [], [])
    else
      var before := Run(index, s, h[..|h| - 1]);
      var o := Step(index, before.slot, h[|h| - 1]);
      RunResult(o.slot, before.sent + Opt(o.published), before.logged + Opt(o.logged))
  }

  function Times(h: seq<TriggerEvent>): (ts: seq<int>)
    ensures |ts| == |h|
  {
    seq(|h|, i requires 0 <= i < |h| => h[i].now)
  }

  /** From fresh cells, the slot holds the last trigger time, the latch says whether
      anything triggered, the rate window follows the trigger times alone, and what is
      sent is exactly the published readings of the history: each gap is measured from
      the previous trigger, whether or not that trigger's read succeeded. */
  lemma {:induction false} RunFromFresh(index: u32, h: seq<TriggerEvent>)
    ensures var r := Run(index, FRESH, h);
      && r.slot.past == (if h == [] then None else Some(h[|h| - 1].now))
      && r.slot.triggered == (h != [])
      && r.slot.rate == RateRun(RateWindow(None, 0), Times(h)).window
      && r.logged == RateRun(RateWindow(None, 0), Times(h)).logged
      && r.sent == Published(index, h)
  {
    if h != [] {
      var p := h[..|h| - 1];
      RunFromFresh(index, p);
      assert Times(h)[..|p|] == Times(p);
      var before := Run(index, FRESH, p);
      assert TriggerGap(h, |p|) == CallbackGap(before.slot.past, h[|p|].now);
      assert h[..|h| - 1] == p;
    }
  }

  /** The cells of one device's callback closure, updated in place by each callback. */
  class Callback {
    const index: u32
    /** The previous trigger time (the "past" slot). */
    var past: Option<int>
    var triggered: bool
    var rate: RateWindow

    /** The latch is set exactly when some callback has run. */
    ghost predicate Valid()
      reads this
    {
      triggered == past.Some?
    }

    constructor (index: u32)
      ensures Valid() && this.index == index
      ensures Slot(past, triggered, rate) == FRESH
    {
      this.index := index;
      past := None;
      triggered := false;
      rate := RateWindow(None, 0);
    }

    /** One data-ready callback, with the time it starts, the outcome of the read and the
        channel's subscriber count. */
    method Trigger(now: int, read: Option<F32x3>, receivers: nat) returns (published: Option<AccelData>, logged: Option<nat>)
      requires Valid()
      modifies this
      ensures Valid()
      ensures Outcome(Slot(past, triggered, rate), published, logged)
        == Step(index, old(Slot(past, triggered, rate)), TriggerEvent(now, read, receivers))
    {
      if !triggered {
        triggered := true;
      }
      var previous := past;
      past := Some(now);
      var gap := CallbackGap(previous, now);
      var u := RateStep(rate, now);
      rate, logged := u.window, u.logged;
      published := Publish(index, gap, read, receivers);
    }
  }

  // ---------------------------------------------------------------------------
  // Polling mode

  /** One iteration of the polling loop: the running flag it observes, the read, the
      time taken right after a successful read, and the subscriber count. */
  datatype PollStep = PollStep(running: bool, read: Option<F32x3>, tnow: int, receivers: nat)

  /** The time of the last successful read among the steps, or the time taken just
      before the loop when there is none. */
  function PrevTime(start: int, steps: seq<PollStep>): int {
    if steps == [] then start
    else if steps[|steps| - 1].read.Some? then steps[|steps| - 1].tnow
    else PrevTime(start, steps[..|steps| - 1])
  }

  /** Everything the polling loop sends over the given iterations. */
  function PollOutput(index: u32, start: int, steps: seq<PollStep>): seq<AccelData> {
    if steps == [] then []
    else
      var prefix := steps[..|steps| - 1];
      var s := steps[|steps| - 1];
      PollOutput(index, start, prefix)
        + (if s.read.Some? && s.receivers > 0
           then [FromTriple(index, ToU32(Elapsed(PrevTime(start, prefix), s.tnow)), s.read.value)]
           else [])
  }

  /** The number of iterations run: up to the first step that observes `running` false. */
  function Iterations(steps: seq<PollStep>): (n: nat)
    ensures n <= |steps|
    ensures forall i :: 0 <= i < n ==> steps[i].running
    ensures n < |steps| ==> !steps[n].running
  {
    if steps == [] || !steps[0].running then 0 else 1 + Iterations(steps[1..])
  }

  /** The polling loop of accelerator_task. */
  method PollLoop(index: u32, start: int, steps: seq<PollStep>) returns (sent: seq<AccelData>, iterations: nat)
    ensures iterations == Iterations(steps)
    ensures sent == PollOutput(index, start, steps[..iterations])
  {
    var now := start;
    sent := [];
    var i := 0;
    while i < |steps| && steps[i].running
      invariant i <= Iterations(steps)
      invariant now == PrevTime(start, steps[..i])
      invariant sent == PollOutput(index, start, steps[..i])
    {
      var s := steps[i];
      assert steps[..i + 1][..i] == steps[..i];
      if s.read.Some? {
        var dur := ToU32(Elapsed(now, s.tnow));
        now := s.tnow;
        if s.receivers > 0 {
          sent := sent + [FromTriple(index, dur, s.read.value)];
        }
      }
      i := i + 1;
    }
    iterations := i;
  }

  /** Until the first successful read, the loop's reference time is the one taken before
      the loop, so the first reading's gap is measured from there rather than being 0;
      a failed read never moves the reference time. */
  lemma {:induction false} PrevTimeBeforeFirstRead(start: int, steps: seq<PollStep>)
    requires forall i :: 0 <= i < |steps| ==> steps[i].read.None?
    ensures PrevTime(start, steps) == start
  {
    if steps != [] {
      PrevTimeBeforeFirstRead(start, steps[..|steps| - 1]);
    }
  }

  /** At most one reading per iteration is sent, and every one carries the poller's
      device index. */
  lemma {:induction false} PollOutputCarriesIndex(index: u32, start: int, steps: seq<PollStep>)
    ensures |PollOutput(index, start, steps)| <= |steps|
    ensures forall k :: 0 <= k < |PollOutput(index, start, steps)| ==> PollOutput(index, start, steps)[k].idx == index
  {
    if steps != [] {
      PollOutputCarriesIndex(index, start, steps[..|steps| - 1]);
    }
  }

  /** accelerator_task: it runs the loop only when opening the bus, creating the
      driver and starting the device all succeed; the warm-up read before the loop is
      only logged. */
  method AcceleratorTask(index: u32, spiOk: bool, driverOk: bool, startOk: bool, start: int, steps: seq<PollStep>)
    returns (sent: seq<AccelData>)
    ensures spiOk && driverOk && startOk ==> sent == PollOutput(index, start, steps[..Iterations(steps)])
    ensures !(spiOk && driverOk && startOk) ==> sent == []
  {
    sent := [];
    if spiOk && driverOk && startOk {
      var iterations;
      sent, iterations := PollLoop(index, start, steps);
    }
  }

  // ---------------------------------------------------------------------------
  // Start-up

  /** How the set-up of one configured device goes: its data-ready pin and whether the
      pin lookup, SPI open, driver creation, start and interrupt registration succeed. */
  datatype Descriptor = Descriptor(drdy: bv8, pinOk: bool, spiOk: bool, driverOk: bool,
                                   startOk: bool, interruptOk: bool)

  /** A device armed for callbacks: its position among the descriptors and its pin. */
  datatype Armed = Armed(index: nat, drdy: bv8)

  predicate SetUp(d: Descriptor) {
    d.pinOk && d.spiOk && d.driverOk && d.startOk && d.interruptOk
  }

  /** The pins kept by start-up: one per descriptor whose whole set-up succeeded, in
      descriptor order, each armed with its position in the original list. */
  function ArmedPins(descs: seq<Descriptor>): seq<Armed> {
    if descs == [] then []
    else
      var n := |descs| - 1;
      ArmedPins(descs[..n]) + (if SetUp(descs[n]) then [Armed(n, descs[n].drdy)] else [])
  }

  /** accelerator_init: fails only when the GPIO controller cannot be opened; an empty
      list of pins is still a success. */
  function AcceleratorInit(gpioOk: bool, descs: seq<Descriptor>): (r: Option<seq<Armed>>)
    ensures r.Some? <==> gpioOk
    ensures gpioOk ==> r.value == ArmedPins(descs)
    ensures gpioOk && (forall i :: 0 <= i < |descs| ==> !SetUp(descs[i])) ==> r == Some([])
  {
    ArmedPinsAreTheSetUpDescriptors(descs);
    assert ArmedPins(descs) != [] ==> SetUp(descs[ArmedPins(descs)[0].index]);
    if gpioOk then Some(ArmedPins(descs)) else None
  }

  /** The armed pins are exactly the fully set-up descriptors: at most one per
      descriptor, in increasing position, each with that descriptor's pin. */
  lemma {:induction false} ArmedPinsAreTheSetUpDescriptors(descs: seq<Descriptor>)
    ensures |ArmedPins(descs)| <= |descs|
    ensures forall k :: 0 <= k < |ArmedPins(descs)| ==>
      var a := ArmedPins(descs)[k];
      a.index < |descs| && SetUp(descs[a.index]) && a.drdy == descs[a.index].drdy
    ensures forall k, l :: 0 <= k < l < |ArmedPins(descs)| ==> ArmedPins(descs)[k].index < ArmedPins(descs)[l].index
    ensures forall i :: 0 <= i < |descs| && SetUp(descs[i]) ==>
      exists k :: 0 <= k < |ArmedPins(descs)| && ArmedPins(descs)[k].index == i
  {
    if descs != [] {
      var n := |descs| - 1;
      var prefix := descs[..n];
      ArmedPinsAreTheSetUpDescriptors(prefix);
      var p := ArmedPins(prefix);
      var r := ArmedPins(descs);
      assert r == p + (if SetUp(descs[n]) then [Armed(n, descs[n].drdy)] else []);
      forall i | 0 <= i < |descs| && SetUp(descs[i])
        ensures exists k :: 0 <= k < |r| && r[k].index == i
      {
        if i < n {
          assert prefix[i] == descs[i];
          var k :| 0 <= k < |p| && p[k].index == i;
          assert r[k] == p[k];
        } else {
          assert r[|r| - 1].index == i;
        }
      }
    }
  }
}
