/** The clients' per-device reconstruction: each received record is filed under its
    device id, in a bounded buffer of samples whose time stamp is the running sum of
    that device's gaps, while a list keeps the ids in first-seen order and a map counts
    each device's packets. The axis values are kept as the bit patterns of their f32
    values, and the derivative columns are left out. */
module Clients {
  import opened Wrappers
  import opened Bytes
  import opened AccelRecord
  import opened DataBuffers

  /** Buffer lengths of the plotting clients (binary and JSON) and the default
      requested length of the thread client, which rounds it to a power of two. */
  const APP_TCP_MAXLEN: nat := 5000
  const APP_WSOCK_MAXLEN: nat := 2000
  const TCP_THREAD_DATASIZE: nat := 2000

  /** One buffered sample. */
  datatype Sample = Sample(tstamp: int, x: u32, y: u32, z: u32)

  /** The client's state: the ids in first-seen order, one buffer per id, and the
      number of records received per id. */
  datatype Store = Store(ids: seq<u32>, datasets: map<u32, seq<Sample>>, packets: map<u32, nat>)

  const EMPTY := Store([], map[], map[])

  ghost predicate Distinct(s: seq<u32>) {
    forall i, j :: 0 <= i < j < |s| ==> s[i] != s[j]
  }

  /** What every reachable store satisfies: each id is listed once, exactly the listed
      ids have a buffer and a packet count, and every buffer is non-empty and within
      its capacity. */
  ghost predicate Valid(st: Store, cap: nat) {
    Distinct(st.ids)
    && (forall id :: id in st.datasets <==> id in st.ids)
    && st.packets.Keys == st.datasets.Keys
    && (forall id :: id in st.datasets ==> 0 < |st.datasets[id]| <= cap)
  }

  /** The shape the filing step relies on: every buffer has a packet count and holds
      at least one sample. */
  ghost predicate Wf(st: Store) {
    st.packets.Keys == st.datasets.Keys && forall id :: id in st.datasets ==> st.datasets[id] != []
  }

  /** Filing one record. A new id is listed, gets a buffer seeded with `tstamp = gap`,
      and a packet count of 1. A known id gets the sample stamped with the last time
      stamp plus the gap, and its count grows by one. None is the division by a zero gap
      when the derivatives of a known id are computed, which happens before anything
      is changed. */
  function Ingest(st: Store, r: AccelData, cap: nat): (res: Option<Store>)
    requires cap >= 1 && Wf(st)
    ensures res.None? <==> r.idx in st.datasets && r.gap == 0
    ensures res.Some? ==> Wf(res.value)
  {
    var sample := Sample(r.gap, r.x, r.y, r.z);
    if r.idx !in st.datasets then
      Some(Store(st.ids + [r.idx], st.datasets[r.idx := BoundedAppend([], sample, cap)], st.packets[r.idx := 1]))
    else if r.gap == 0 then None
    else
      var ds := st.datasets[r.idx];
      var next := sample.(tstamp := Last(ds).tstamp + r.gap);
      Some(Store(st.ids, st.datasets[r.idx := BoundedAppend(ds, next, cap)], st.packets[r.idx := st.packets[r.idx] + 1]))
  }

  /** Filing keeps every store reachable: ids listed once and matching the buffers,
      buffers within capacity; a new id is appended to the list, a known one leaves it
      as it is. */
  lemma IngestKeepsValid(st: Store, r: AccelData, cap: nat)
    requires cap >= 1 && Valid(st, cap)
    ensures Ingest(st, r, cap).Some? ==> Valid(Ingest(st, r, cap).value, cap)
    ensures Ingest(st, r, cap).Some? && r.idx in st.ids ==> Ingest(st, r, cap).value.ids == st.ids
    ensures Ingest(st, r, cap).Some? && r.idx !in st.ids ==> Ingest(st, r, cap).value.ids == st.ids + [r.idx]
  {
    if r.idx in st.datasets {
      if r.gap != 0 {
        KnownIdKeepsValid(st, r, cap);
      }
    } else {
      NewIdKeepsValid(st, r, cap);
    }
  }

  lemma KnownIdKeepsValid(st: Store, r: AccelData, cap: nat)
    requires cap >= 1 && Valid(st, cap) && r.idx in st.datasets && r.gap != 0
    ensures Valid(Ingest(st, r, cap).value, cap) && Ingest(st, r, cap).value.ids == st.ids
  {
  }

  lemma NewIdKeepsValid(st: Store, r: AccelData, cap: nat)
    requires cap >= 1 && Valid(st, cap) && r.idx !in st.datasets
    ensures Valid(Ingest(st, r, cap).value, cap) && Ingest(st, r, cap).value.ids == st.ids + [r.idx]
  {
  }

  /** Filing records in order; None once a zero gap of a known id raises. */
  function IngestAll(st: Store, recs: seq<AccelData>, cap: nat): (res: Option<Store>)
    requires cap >= 1 && Wf(st)
    ensures res.Some? ==> Wf(res.value)
    decreases |recs|
  {
    if recs == [] then Some(st)
    else
      var prev := IngestAll(st, recs[..|recs| - 1], cap);
      if prev.None? then None else Ingest(prev.value, recs[|recs| - 1], cap)
  }

  // ---------------------------------------------------------------------------
  // The reference description of a store built from the empty one

  function IdsOf(recs: seq<AccelData>): (s: seq<u32>)
    ensures |s| == |recs| && forall i :: 0 <= i < |recs| ==> s[i] == recs[i].idx
  {
    seq(|recs|, i requires 0 <= i < |recs| => recs[i].idx)
  }

  /** The elements of s, each at its first occurrence. */
  function FirstSeen(s: seq<u32>): seq<u32> {
    if s == [] then []
    else FirstSeen(s[..|s| - 1]) + if s[|s| - 1] in s[..|s| - 1] then [] else [s[|s| - 1]]
  }

  /** The sum of the gaps of the records of one id. */
  function GapSum(recs: seq<AccelData>, id: u32): int {
    if recs == [] then 0
    else GapSum(recs[..|recs| - 1], id) + if Last(recs).idx == id then Last(recs).gap else 0
  }

  /** The samples of one id, each stamped with the sum of the gaps up to and including
      its own record. */
  function SamplesOf(recs: seq<AccelData>, id: u32): seq<Sample> {
    if recs == [] then []
    else
      var r := Last(recs);
      SamplesOf(recs[..|recs| - 1], id) + if r.idx == id then [Sample(GapSum(recs, id), r.x, r.y, r.z)] else []
  }

  /** The first-seen list lists every id once. */
  lemma {:induction false} FirstSeenListsEachOnce(s: seq<u32>)
    ensures Distinct(FirstSeen(s))
    ensures forall id :: id in FirstSeen(s) <==> id in s
  {
    if s != [] {
      var p := s[..|s| - 1];
      FirstSeenListsEachOnce(p);
      assert s == p + [s[|s| - 1]];
    }
  }

  /** Whether filing recs from the empty store divides by zero: some record with a zero
      gap has an id seen earlier. */
  function Crashes(recs: seq<AccelData>): bool {
    if recs == [] then false
    else Crashes(recs[..|recs| - 1]) || (Last(recs).gap == 0 && Last(recs).idx in IdsOf(recs[..|recs| - 1]))
  }

  /** An id's sample list is empty exactly when no record has that id, and otherwise its
      last sample carries the id's gap sum. */
  lemma {:induction false} SamplesOfLast(recs: seq<AccelData>, id: u32)
    ensures SamplesOf(recs, id) == [] <==> id !in IdsOf(recs)
    ensures SamplesOf(recs, id) == [] ==> GapSum(recs, id) == 0
    ensures SamplesOf(recs, id) != [] ==> Last(SamplesOf(recs, id)).tstamp == GapSum(recs, id)
  {
    if recs != [] {
      var p := recs[..|recs| - 1];
      SamplesOfLast(p, id);
      assert IdsOf(recs) == IdsOf(p) + [Last(recs).idx];
    }
  }

  /** The store lists the ids first-seen, keeps for each the newest `cap` of its samples
      and counts all of them. */
  ghost predicate Reflects(st: Store, recs: seq<AccelData>, cap: nat) {
    st.ids == FirstSeen(IdsOf(recs))
    && (forall id :: id in st.datasets <==> id in IdsOf(recs))
    && st.packets.Keys == st.datasets.Keys
    && (forall id :: id in st.datasets ==>
          st.datasets[id] == LastN(SamplesOf(recs, id), cap) && st.packets[id] == |SamplesOf(recs, id)|)
  }

  /** Filing one more record keeps the store the reference store of the longer
      sequence. */
  lemma IngestReflectsStep(st: Store, p: seq<AccelData>, r: AccelData, cap: nat)
    requires cap >= 1 && Wf(st) && Reflects(st, p, cap)
    requires !(r.idx in st.datasets && r.gap == 0)
    ensures Reflects(Ingest(st, r, cap).value, p + [r], cap)
  {
    var recs := p + [r];
    assert recs[..|recs| - 1] == p;
    assert IdsOf(recs) == IdsOf(p) + [r.idx];
    ReflectsFiledId(st, p, r, cap);
    ReflectsOtherIds(st, p, r, cap);
  }

  /** The filed id's buffer and count. */
  lemma ReflectsFiledId(st: Store, p: seq<AccelData>, r: AccelData, cap: nat)
    requires cap >= 1 && Wf(st) && Reflects(st, p, cap)
    requires !(r.idx in st.datasets && r.gap == 0)
    ensures var st' := Ingest(st, r, cap).value;
      r.idx in st'.datasets && r.idx in st'.packets
      && st'.datasets[r.idx] == LastN(SamplesOf(p + [r], r.idx), cap)
      && st'.packets[r.idx] == |SamplesOf(p + [r], r.idx)|
  {
    if r.idx in st.datasets {
      FiledKnownId(st, p, r, cap);
    } else {
      FiledNewId(st, p, r, cap);
    }
  }

  lemma FiledKnownId(st: Store, p: seq<AccelData>, r: AccelData, cap: nat)
    requires cap >= 1 && Wf(st) && r.idx in st.datasets && r.gap != 0
    requires st.datasets[r.idx] == LastN(SamplesOf(p, r.idx), cap) && st.packets[r.idx] == |SamplesOf(p, r.idx)|
    ensures var st' := Ingest(st, r, cap).value;
      st'.datasets[r.idx] == LastN(SamplesOf(p + [r], r.idx), cap)
      && st'.packets[r.idx] == |SamplesOf(p + [r], r.idx)|
  {
    var recs := p + [r];
    var S := SamplesOf(p, r.idx);
    assert recs[..|recs| - 1] == p;
    SamplesOfLast(p, r.idx);
    LastNIsSuffix(S, cap);
    assert Last(LastN(S, cap)) == Last(S);
    var x := Sample(GapSum(recs, r.idx), r.x, r.y, r.z);
    assert SamplesOf(recs, r.idx) == S + [x];
    LastNThenAppend(S, x, cap);
  }

  lemma FiledNewId(st: Store, p: seq<AccelData>, r: AccelData, cap: nat)
    requires cap >= 1 && Wf(st) && r.idx !in st.datasets && r.idx !in IdsOf(p)
    ensures var st' := Ingest(st, r, cap).value;
      st'.datasets[r.idx] == LastN(SamplesOf(p + [r], r.idx), cap)
      && st'.packets[r.idx] == |SamplesOf(p + [r], r.idx)|
  {
    var recs := p + [r];
    assert recs[..|recs| - 1] == p;
    SamplesOfLast(p, r.idx);
    assert SamplesOf(recs, r.idx) == [Sample(GapSum(recs, r.idx), r.x, r.y, r.z)];
  }

  /** The other ids, and the id list. */
  lemma ReflectsOtherIds(st: Store, p: seq<AccelData>, r: AccelData, cap: nat)
    requires cap >= 1 && Wf(st) && Reflects(st, p, cap)
    requires !(r.idx in st.datasets && r.gap == 0)
    ensures var st' := Ingest(st, r, cap).value;
      st'.ids == FirstSeen(IdsOf(p + [r]))
      && (forall id :: id in st'.datasets <==> id in IdsOf(p + [r]))
      && st'.packets.Keys == st'.datasets.Keys
      && forall id :: id in st'.datasets && id != r.idx ==>
           st'.datasets[id] == LastN(SamplesOf(p + [r], id), cap) && st'.packets[id] == |SamplesOf(p + [r], id)|
  {
    var recs := p + [r];
    assert recs[..|recs| - 1] == p;
    assert IdsOf(recs) == IdsOf(p) + [r.idx];
    ReflectsKeys(st, p, r, cap);
    ReflectsUntouched(st, p, r, cap);
  }

  lemma ReflectsKeys(st: Store, p: seq<AccelData>, r: AccelData, cap: nat)
    requires cap >= 1 && Wf(st) && !(r.idx in st.datasets && r.gap == 0)
    requires st.ids == FirstSeen(IdsOf(p)) && forall id :: id in st.datasets <==> id in IdsOf(p)
    ensures var st' := Ingest(st, r, cap).value;
      st'.ids == FirstSeen(IdsOf(p + [r]))
      && (forall id :: id in st'.datasets <==> id in IdsOf(p + [r]))
      && st'.packets.Keys == st'.datasets.Keys
  {
    var recs := p + [r];
    assert IdsOf(recs) == IdsOf(p) + [r.idx];
    assert IdsOf(recs)[..|recs| - 1] == IdsOf(p);
  }

  lemma ReflectsUntouched(st: Store, p: seq<AccelData>, r: AccelData, cap: nat)
    requires cap >= 1 && Wf(st) && !(r.idx in st.datasets && r.gap == 0)
    requires forall id :: id in st.datasets ==>
      st.datasets[id] == LastN(SamplesOf(p, id), cap) && st.packets[id] == |SamplesOf(p, id)|
    ensures var st' := Ingest(st, r, cap).value;
      forall id :: id in st'.datasets && id != r.idx ==>
        st'.datasets[id] == LastN(SamplesOf(p + [r], id), cap) && st'.packets[id] == |SamplesOf(p + [r], id)|
  {
    var recs := p + [r];
    assert recs[..|recs| - 1] == p;
    forall id | id != r.idx
      ensures SamplesOf(recs, id) == SamplesOf(p, id)
    {
    }
  }

  /** Filed from the empty store, recs raise exactly when a known id comes with a zero
      gap, and otherwise the store is the reference one. */
  lemma {:induction false} IngestAllFromEmpty(recs: seq<AccelData>, cap: nat)
    requires cap >= 1
    ensures IngestAll(EMPTY, recs, cap).Some? <==> !Crashes(recs)
    ensures IngestAll(EMPTY, recs, cap).Some? ==> Reflects(IngestAll(EMPTY, recs, cap).value, recs, cap)
    decreases |recs|
  {
    if recs != [] {
      var p := recs[..|recs| - 1];
      var r := Last(recs);
      IngestAllFromEmpty(p, cap);
      assert recs == p + [r];
      var prev := IngestAll(EMPTY, p, cap);
      if prev.Some? && !(r.idx in prev.value.datasets && r.gap == 0) {
        IngestReflectsStep(prev.value, p, r, cap);
      }
    }
  }

  /** Filed from the empty store, the buffers are exactly those of the ids seen. */
  lemma FiledIdsAreSeenIds(recs: seq<AccelData>, cap: nat)
    requires cap >= 1 && IngestAll(EMPTY, recs, cap).Some?
    ensures forall id :: id in IngestAll(EMPTY, recs, cap).value.datasets <==> id in IdsOf(recs)
  {
    IngestAllFromEmpty(recs, cap);
  }

  /** What the reference store says about one id: its packet count is its number of
      records, its buffer holds at most `cap` samples, and its newest sample is stamped
      with the sum of all its gaps. */
  lemma {:induction false} ReflectedId(st: Store, recs: seq<AccelData>, cap: nat, id: u32)
    requires cap >= 1 && Reflects(st, recs, cap) && id in st.datasets
    ensures st.packets[id] == |SamplesOf(recs, id)|
    ensures 0 < |st.datasets[id]| <= cap
    ensures Last(st.datasets[id]).tstamp == GapSum(recs, id)
  {
    SamplesOfLast(recs, id);
  }

  // ---------------------------------------------------------------------------
  // The binary clients' receive loop

  /** One recv(20): the bytes it returned (possibly fewer than 20, and none once the
      server has closed the connection), or a failure of the socket. */
  datatype Received = Chunk(bytes: seq<u8>) | RecvFailed

  /** The effect of one received chunk. */
  datatype ChunkOutcome = Skipped | Stored(store: Store) | Closed

  /** One turn of the loop as written: a chunk that does not unpack as a 20-byte record
      is reported and skipped; a division by zero or a failed recv closes the socket
      and ends the loop. The empty chunk by which recv reports a closed connection is
      treated like any other chunk that does not unpack. */
  function ChunkStepAsWritten(st: Store, e: Received, cap: nat): (o: ChunkOutcome)
    requires cap >= 1 && Wf(st)
    ensures o.Stored? ==> Wf(o.store)
  {
    match e
    case RecvFailed => Closed
    case Chunk(bs) =>
      match Unpack(bs)
      case None => Skipped
      case Some(r) =>
        var res := Ingest(st, r, cap);
        if res.None? then Closed else Stored(res.value)
  }

  /** Once the server has closed the connection every recv returns no bytes, and the
      written loop skips each of them without changing anything: it never ends. */
  lemma ClosedPeerSpinsAsWritten(st: Store, cap: nat)
    requires cap >= 1 && Wf(st)
    ensures ChunkStepAsWritten(st, Chunk([]), cap) == Skipped
  {
  }

  /** One turn of the loop as evidently intended: an empty chunk ends it like a failed
      recv. */
  function ChunkStep(st: Store, e: Received, cap: nat): (o: ChunkOutcome)
    requires cap >= 1 && Wf(st)
    ensures o.Stored? ==> Wf(o.store)
    ensures e == Chunk([]) ==> o == Closed
    ensures e != Chunk([]) ==> o == ChunkStepAsWritten(st, e, cap)
  {
    if e == Chunk([]) then Closed else ChunkStepAsWritten(st, e, cap)
  }

  /** A chunk of the wrong size is skipped and the store is left as it is; a record is
      filed; only a failed recv, a closed connection or a division by zero ends the
      loop. */
  lemma ChunkStepCases(st: Store, e: Received, cap: nat)
    requires cap >= 1 && Wf(st)
    ensures ChunkStep(st, e, cap) == Closed <==>
      e == RecvFailed || e == Chunk([]) || (|e.bytes| == RECORD_SIZE && Ingest(st, Unpack(e.bytes).value, cap).None?)
    ensures ChunkStep(st, e, cap) == Skipped <==> e.Chunk? && e.bytes != [] && |e.bytes| != RECORD_SIZE
    ensures ChunkStep(st, e, cap).Stored? ==> ChunkStep(st, e, cap).store == Ingest(st, Unpack(e.bytes).value, cap).value
  {
  }

  /** The client's state between turns: its store, and whether the loop still runs. */
  datatype Client = Client(store: Store, open: bool)

  function TcpRun(events: seq<Received>, cap: nat): (c: Client)
    requires cap >= 1
    ensures Wf(c.store)
    decreases |events|
  {
    if events == [] then Client(EMPTY, true)
    else
      var prev := TcpRun(events[..|events| - 1], cap);
      if !prev.open then prev
      else
        match ChunkStep(prev.store, events[|events| - 1], cap)
        case Skipped => prev
        case Stored(st) => Client(st, true)
        case Closed => Client(prev.store, false)
  }

  /** The receive loop of the binary clients, over the results of its recv calls; it
      stops reading at the first turn that closes the socket. */
  method TcpClient(events: seq<Received>, cap: nat) returns (st: Store, open: bool)
    requires cap >= 1
    ensures Client(st, open) == TcpRun(events, cap)
  {
    st := EMPTY;
    open := true;
    var i := 0;
    while i < |events|
      invariant 0 <= i <= |events|
      invariant open && Client(st, open) == TcpRun(events[..i], cap)
    {
      assert events[..i + 1][..i] == events[..i];
      var o := ChunkStep(st, events[i], cap);
      if o.Closed? {
        open := false;
        TcpRunStaysClosed(events, cap, i + 1);
        return;
      }
      if o.Stored? {
        st := o.store;
      }
      i := i + 1;
    }
    assert events[..i] == events;
  }

  /** Nothing after the turn that closes the socket is read. */
  lemma {:induction false} TcpRunStaysClosed(events: seq<Received>, cap: nat, n: nat)
    requires cap >= 1 && n <= |events| && !TcpRun(events[..n], cap).open
    ensures TcpRun(events, cap) == TcpRun(events[..n], cap)
    decreases |events| - n
  {
    if n < |events| {
      assert events[..n + 1][..n] == events[..n];
      TcpRunStaysClosed(events, cap, n + 1);
    } else {
      assert events[..n] == events;
    }
  }

  /** The records in the chunks that unpack. */
  function Decoded(events: seq<Received>): seq<AccelData> {
    if events == [] then []
    else
      var e := events[|events| - 1];
      Decoded(events[..|events| - 1]) + if e.Chunk? && |e.bytes| == RECORD_SIZE then [Unpack(e.bytes).value] else []
  }

  predicate EndsLoop(e: Received) {
    e == RecvFailed || e == Chunk([])
  }

  /** While the loop runs, its store is the one filing the unpacked records from the
      empty store gives. */
  lemma {:induction false} TcpRunFilesDecoded(events: seq<Received>, cap: nat)
    requires cap >= 1
    ensures TcpRun(events, cap).open ==> IngestAll(EMPTY, Decoded(events), cap) == Some(TcpRun(events, cap).store)
    decreases |events|
  {
    if events != [] {
      var p := events[..|events| - 1];
      var e := events[|events| - 1];
      TcpRunFilesDecoded(p, cap);
      TcpRunTurn(events, cap);
      var d := Decoded(p);
      if e.Chunk? && |e.bytes| == RECORD_SIZE {
        var r := Unpack(e.bytes).value;
        assert Decoded(events) == d + [r];
        assert (d + [r])[..|d|] == d;
      } else {
        assert Decoded(events) == d;
      }
    }
  }

  /** What one more turn does to a running loop's store. */
  lemma TcpRunTurn(events: seq<Received>, cap: nat)
    requires cap >= 1 && events != []
    ensures var prev := TcpRun(events[..|events| - 1], cap); var e := events[|events| - 1];
      TcpRun(events, cap).open ==>
        prev.open
        && (e.Chunk? && |e.bytes| == RECORD_SIZE ==>
              Ingest(prev.store, Unpack(e.bytes).value, cap) == Some(TcpRun(events, cap).store))
        && (!(e.Chunk? && |e.bytes| == RECORD_SIZE) ==> TcpRun(events, cap).store == prev.store)
  {
  }

  /** The loop is still running after the given results unless one of them ends it or
      the unpacked records divide by zero. */
  lemma {:induction false} TcpRunKeepsRunning(events: seq<Received>, cap: nat)
    requires cap >= 1
    requires forall i :: 0 <= i < |events| ==> !EndsLoop(events[i])
    requires !Crashes(Decoded(events))
    ensures TcpRun(events, cap).open
    decreases |events|
  {
    if events != [] {
      var p := events[..|events| - 1];
      var e := events[|events| - 1];
      var d := Decoded(p);
      assert !EndsLoop(e);
      if e.Chunk? && |e.bytes| == RECORD_SIZE {
        var r := Unpack(e.bytes).value;
        assert Decoded(events) == d + [r];
        assert (d + [r])[..|d|] == d;
        assert !Crashes(d);
        TcpRunKeepsRunning(p, cap);
        TcpRunFilesDecoded(p, cap);
        FiledIdsAreSeenIds(d, cap);
        TcpRunFiles(events, cap);
      } else {
        assert Decoded(events) == d;
        TcpRunKeepsRunning(p, cap);
      }
    }
  }

  /** A turn that unpacks a record and files it keeps the loop running. */
  lemma TcpRunFiles(events: seq<Received>, cap: nat)
    requires cap >= 1 && events != []
    requires TcpRun(events[..|events| - 1], cap).open
    requires var e := events[|events| - 1]; e.Chunk? && |e.bytes| == RECORD_SIZE
    requires Ingest(TcpRun(events[..|events| - 1], cap).store, Unpack(events[|events| - 1].bytes).value, cap).Some?
    ensures TcpRun(events, cap).open
  {
  }

  /** The chunks the server sends when each recv returns one whole record. */
  function RecordChunks(rs: seq<AccelData>): (es: seq<Received>)
    ensures |es| == |rs| && forall i :: 0 <= i < |rs| ==> es[i] == Chunk(AsBytes(rs[i]))
  {
    seq(|rs|, i requires 0 <= i < |rs| => Chunk(AsBytes(rs[i])))
  }

  /** Record by record, the client unpacks exactly what the server packed. */
  lemma {:induction false} DecodedRecordChunks(rs: seq<AccelData>)
    ensures Decoded(RecordChunks(rs)) == rs
    decreases |rs|
  {
    if rs != [] {
      var p := rs[..|rs| - 1];
      DecodedRecordChunks(p);
      assert RecordChunks(rs)[..|rs| - 1] == RecordChunks(p);
      UnpackAsBytes(rs[|rs| - 1]);
    }
  }

  // ---------------------------------------------------------------------------
  // The JSON client's receive loop

  /** One element of a received JSON array: an object, with each of the five keys
      present or missing (the axis values as the bit patterns of the numbers they
      denote), or any other JSON value. */
  datatype JsonItem =
    | Object(idx: Option<u32>, gap: Option<u32>, x: Option<u32>, y: Option<u32>, z: Option<u32>)
    | NonObject

  /** What a text message parses to. */
  datatype Json = NotJson | NotAList | List(items: seq<JsonItem>)

  /** One recv(): a text message, a binary one, or a failure (the connection closed). */
  datatype Message = Text(json: Json) | Binary | Disconnected

  predicate Complete(item: JsonItem) {
    item.Object? && item.idx.Some? && item.gap.Some? && item.x.Some? && item.y.Some? && item.z.Some?
  }

  function RecordOf(item: JsonItem): AccelData
    requires Complete(item)
  {
    AccelData(item.idx.value, item.gap.value, item.x.value, item.y.value, item.z.value)
  }

  /** Processing a batch: an object missing a key is reported and skipped; a value that
      is not an object (its lookup raises a type error) or a zero gap of a known id
      abandons the rest of the batch, which `open == false` records. */
  function BatchRun(st: Store, items: seq<JsonItem>, cap: nat): (c: Client)
    requires cap >= 1 && Wf(st)
    ensures Wf(c.store)
    decreases |items|
  {
    if items == [] then Client(st, true)
    else
      var prev := BatchRun(st, items[..|items| - 1], cap);
      var item := items[|items| - 1];
      if !prev.open then prev
      else if item.NonObject? then Client(prev.store, false)
      else if !Complete(item) then prev
      else
        var res := Ingest(prev.store, RecordOf(item), cap);
        if res.None? then Client(prev.store, false) else Client(res.value, true)
  }

  /** The loop over the elements of one batch. */
  method IngestBatch(st: Store, items: seq<JsonItem>, cap: nat) returns (st': Store)
    requires cap >= 1 && Wf(st)
    ensures st' == BatchRun(st, items, cap).store
  {
    st' := st;
    var i := 0;
    while i < |items|
      invariant 0 <= i <= |items|
      invariant BatchRun(st, items[..i], cap) == Client(st', true)
    {
      assert items[..i + 1][..i] == items[..i];
      var item := items[i];
      if item.NonObject? {
        BatchRunStaysAbandoned(st, items, cap, i + 1);
        return;
      }
      if Complete(item) {
        var res := Ingest(st', RecordOf(item), cap);
        if res.None? {
          BatchRunStaysAbandoned(st, items, cap, i + 1);
          return;
        }
        st' := res.value;
      }
      i := i + 1;
    }
    assert items[..i] == items;
  }

  /** Once abandoned, the rest of the batch is not processed. */
  lemma {:induction false} BatchRunStaysAbandoned(st: Store, items: seq<JsonItem>, cap: nat, n: nat)
    requires cap >= 1 && Wf(st) && n <= |items| && !BatchRun(st, items[..n], cap).open
    ensures BatchRun(st, items, cap) == BatchRun(st, items[..n], cap)
    decreases |items| - n
  {
    if n < |items| {
      assert items[..n + 1][..n] == items[..n];
      BatchRunStaysAbandoned(st, items, cap, n + 1);
    } else {
      assert items[..n] == items;
    }
  }

  function WsRun(msgs: seq<Message>, cap: nat): (c: Client)
    requires cap >= 1
    ensures Wf(c.store)
    decreases |msgs|
  {
    if msgs == [] then Client(EMPTY, true)
    else
      var prev := WsRun(msgs[..|msgs| - 1], cap);
      var m := msgs[|msgs| - 1];
      if !prev.open then prev
      else if m.Disconnected? then Client(prev.store, false)
      else if m.Text? && m.json.List? then Client(BatchRun(prev.store, m.json.items, cap).store, true)
      else prev
  }

  /** The receive loop of the JSON client, over the results of its recv calls; it stops
      reading when a recv fails. */
  method WsClient(msgs: seq<Message>, cap: nat) returns (st: Store, open: bool)
    requires cap >= 1
    ensures Client(st, open) == WsRun(msgs, cap)
  {
    st := EMPTY;
    open := true;
    var i := 0;
    while i < |msgs|
      invariant 0 <= i <= |msgs|
      invariant open && Client(st, open) == WsRun(msgs[..i], cap)
    {
      assert msgs[..i + 1][..i] == msgs[..i];
      var m := msgs[i];
      if m.Disconnected? {
        open := false;
        WsRunStaysClosed(msgs, cap, i + 1);
        return;
      }
      if m.Text? && m.json.List? {
        st := IngestBatch(st, m.json.items, cap);
      }
      i := i + 1;
    }
    assert msgs[..i] == msgs;
  }

  lemma {:induction false} WsRunStaysClosed(msgs: seq<Message>, cap: nat, n: nat)
    requires cap >= 1 && n <= |msgs| && !WsRun(msgs[..n], cap).open
    ensures WsRun(msgs, cap) == WsRun(msgs[..n], cap)
    decreases |msgs| - n
  {
    if n < |msgs| {
      assert msgs[..n + 1][..n] == msgs[..n];
      WsRunStaysClosed(msgs, cap, n + 1);
    } else {
      assert msgs[..n] == msgs;
    }
  }

  /** The batch without its incomplete objects. */
  function WithoutIncomplete(items: seq<JsonItem>): seq<JsonItem> {
    if items == [] then []
    else
      var item := items[|items| - 1];
      WithoutIncomplete(items[..|items| - 1]) + if item.Object? && !Complete(item) then [] else [item]
  }

  /** Skipping an object with a missing key loses nothing else: the batch is processed
      as if that object were not there. */
  lemma {:induction false} IncompleteObjectsAreSkipped(st: Store, items: seq<JsonItem>, cap: nat)
    requires cap >= 1 && Wf(st)
    ensures BatchRun(st, items, cap) == BatchRun(st, WithoutIncomplete(items), cap)
    decreases |items|
  {
    if items != [] {
      var p := items[..|items| - 1];
      var item := items[|items| - 1];
      IncompleteObjectsAreSkipped(st, p, cap);
      if !(item.Object? && !Complete(item)) {
        var w := WithoutIncomplete(p) + [item];
        assert WithoutIncomplete(items) == w;
        assert w[..|w| - 1] == WithoutIncomplete(p);
      } else {
        assert WithoutIncomplete(items) == WithoutIncomplete(p) + [] == WithoutIncomplete(p);
        assert BatchRun(st, items, cap) == BatchRun(st, p, cap);
      }
    }
  }

  function RecordsOf(items: seq<JsonItem>): (rs: seq<AccelData>)
    requires forall i :: 0 <= i < |items| ==> Complete(items[i])
    ensures |rs| == |items|
  {
    seq(|items|, i requires 0 <= i < |items| => RecordOf(items[i]))
  }

  /** A batch of complete objects completes exactly when filing their records does,
      and then leaves the store filing them gives. */
  lemma {:induction false} CompleteBatchFilesAll(st: Store, items: seq<JsonItem>, cap: nat)
    requires cap >= 1 && Wf(st)
    requires forall i :: 0 <= i < |items| ==> Complete(items[i])
    ensures BatchRun(st, items, cap).open <==> IngestAll(st, RecordsOf(items), cap).Some?
    ensures BatchRun(st, items, cap).open ==> IngestAll(st, RecordsOf(items), cap).value == BatchRun(st, items, cap).store
    decreases |items|
  {
    if items != [] {
      var p := items[..|items| - 1];
      CompleteBatchFilesAll(st, p, cap);
      assert RecordsOf(items)[..|items| - 1] == RecordsOf(p);
      if !BatchRun(st, p, cap).open {
        BatchRunStaysAbandoned(st, items, cap, |p|);
      }
    }
  }

  // ---------------------------------------------------------------------------
  // The clients as configured

  /** Every store the binary receive loop reaches is valid for its buffer length. */
  lemma {:induction false} TcpRunKeepsValid(events: seq<Received>, cap: nat)
    requires cap >= 1
    ensures Valid(TcpRun(events, cap).store, cap)
    decreases |events|
  {
    if events != [] {
      var prev := TcpRun(events[..|events| - 1], cap);
      TcpRunKeepsValid(events[..|events| - 1], cap);
      var e := events[|events| - 1];
      if prev.open {
        ChunkStepCases(prev.store, e, cap);
        if ChunkStep(prev.store, e, cap).Stored? {
          IngestKeepsValid(prev.store, Unpack(e.bytes).value, cap);
        }
      }
    }
  }

  /** Every store a JSON batch leaves is valid when the batch starts from a valid one. */
  lemma {:induction false} BatchRunKeepsValid(st: Store, items: seq<JsonItem>, cap: nat)
    requires cap >= 1 && Wf(st) && Valid(st, cap)
    ensures Valid(BatchRun(st, items, cap).store, cap)
    decreases |items|
  {
    if items != [] {
      var prev := BatchRun(st, items[..|items| - 1], cap);
      BatchRunKeepsValid(st, items[..|items| - 1], cap);
      var item := items[|items| - 1];
      if prev.open && item.Object? && Complete(item) {
        IngestKeepsValid(prev.store, RecordOf(item), cap);
      }
    }
  }

  /** Every store the JSON receive loop reaches is valid for its buffer length. */
  lemma {:induction false} WsRunKeepsValid(msgs: seq<Message>, cap: nat)
    requires cap >= 1
    ensures Valid(WsRun(msgs, cap).store, cap)
    decreases |msgs|
  {
    if msgs != [] {
      var prev := WsRun(msgs[..|msgs| - 1], cap);
      WsRunKeepsValid(msgs[..|msgs| - 1], cap);
      var m := msgs[|msgs| - 1];
      if prev.open && m.Text? && m.json.List? {
        BatchRunKeepsValid(prev.store, m.json.items, cap);
      }
    }
  }

  /** The plotting binary client: buffers of 5000 samples. */
  method AppTcpClient(events: seq<Received>) returns (st: Store, open: bool)
    ensures Client(st, open) == TcpRun(events, APP_TCP_MAXLEN)
    ensures Valid(st, APP_TCP_MAXLEN)
  {
    st, open := TcpClient(events, APP_TCP_MAXLEN);
    TcpRunKeepsValid(events, APP_TCP_MAXLEN);
  }

  /** The thread client: a requested length of 2000, which its buffers round up to
      2048. */
  method ThreadTcpClient(events: seq<Received>) returns (st: Store, open: bool)
    ensures Client(st, open) == TcpRun(events, 2048)
    ensures Valid(st, 2048)
  {
    DefaultPow2Capacity();
    st, open := TcpClient(events, NextPow2(TCP_THREAD_DATASIZE));
    TcpRunKeepsValid(events, NextPow2(TCP_THREAD_DATASIZE));
  }

  /** The plotting JSON client: buffers of 2000 samples. */
  method AppWsockClient(msgs: seq<Message>) returns (st: Store, open: bool)
    ensures Client(st, open) == WsRun(msgs, APP_WSOCK_MAXLEN)
    ensures Valid(st, APP_WSOCK_MAXLEN)
  {
    st, open := WsClient(msgs, APP_WSOCK_MAXLEN);
    WsRunKeepsValid(msgs, APP_WSOCK_MAXLEN);
  }
}
