/** The per-client handlers of the data server: each subscribes to the stream of
    readings, collects them into a fixed-capacity batch, and sends a batch only when a
    reading arrives at a full buffer, dropping that reading. The socket and the
    broadcast channel become a sequence of events; what is sent becomes an output. */
module Net {
  import opened Wrappers
  import opened Bytes
  import opened AccelRecord
  import opened Seqs

  /** Readings per batch: the WebSocket buffer holds 128 readings, the TCP buffer
      128 records of 20 bytes. */
  const BATCH: nat := 128
  const TCP_CAPACITY: nat := 2560
  /** The WebSocket handler logs and resets its counter after more than a second. */
  const LOG_PERIOD_MICROS: nat := 1_000_000

  /** Of every BATCH + 1 consecutive readings, the last one meets a full buffer and is
      dropped: the readings that reach some batch. */
  function Kept(rs: seq<AccelData>): seq<AccelData> {
    if rs == [] then []
    else
      var n := |rs| - 1;
      Kept(rs[..n]) + (if n % (BATCH + 1) == BATCH then [] else [rs[n]])
  }

  lemma KeptStep(rs: seq<AccelData>, r: AccelData)
    ensures Kept(rs + [r]) == Kept(rs) + (if |rs| % (BATCH + 1) == BATCH then [] else [r])
  {
    assert (rs + [r])[..|rs|] == rs;
  }

  /** How the kept readings sit in the received ones: the k-th kept reading is the
      reading received at k + k / 128, so exactly one reading in 129 is lost. */
  lemma {:induction false} KeptIndex(rs: seq<AccelData>)
    ensures |Kept(rs)| == |rs| - |rs| / (BATCH + 1)
    ensures forall k :: 0 <= k < |Kept(rs)| ==> k + k / BATCH < |rs| && Kept(rs)[k] == rs[k + k / BATCH]
  {
    if rs != [] {
      var n := |rs| - 1;
      var p := rs[..n];
      KeptIndex(p);
      var q, m := n / (BATCH + 1), n % (BATCH + 1);
      assert n == (BATCH + 1) * q + m;
      if m == BATCH {
        assert n + 1 == (BATCH + 1) * (q + 1);
        assert (n + 1) / (BATCH + 1) == q + 1;
      } else {
        assert n + 1 == (BATCH + 1) * q + (m + 1);
        assert (n + 1) / (BATCH + 1) == q;
        var k := n - q;
        assert k == BATCH * q + m;
        assert k / BATCH == q;
      }
      forall k | 0 <= k < |Kept(p)|
        ensures Kept(rs)[k] == rs[k + k / BATCH]
      {
        assert Kept(rs)[k] == Kept(p)[k];
      }
    }
  }

  lemma DivBatch(j: nat, k: nat)
    requires k < BATCH
    ensures (BATCH * j + k) / BATCH == j
  {
  }

  /** The k-th kept reading is the reading received k + k / 128 th. */
  lemma KeptAt(rs: seq<AccelData>, k: nat)
    requires k < |Kept(rs)|
    ensures k + k / BATCH < |rs| && Kept(rs)[k] == rs[k + k / BATCH]
  {
    KeptIndex(rs);
  }

  // ---------------------------------------------------------------------------
  // TCP

  /** What one turn of the TCP handler's loop sees: a reading (and, should it meet a
      full buffer, whether writing the batch succeeds), a receive error (a lagged or
      closed channel), the one-second timer, or the running flag found false. */
  datatype TcpEvent = TcpReading(data: AccelData, writeOk: bool) | TcpRecvError | TcpTimer | TcpShutdown

  function TcpReadings(events: seq<TcpEvent>): seq<AccelData> {
    if events == [] then []
    else
      TcpReadings(events[..|events| - 1])
        + (if events[|events| - 1].TcpReading? then [events[|events| - 1].data] else [])
  }

  /** Event i is a reading that meets a full buffer. */
  predicate TcpFlushes(events: seq<TcpEvent>, i: nat)
    requires i < |events|
  {
    events[i].TcpReading? && |TcpReadings(events[..i])| % (BATCH + 1) == BATCH
  }

  /** Event i ends the handler. */
  predicate TcpEnds(events: seq<TcpEvent>, i: nat)
    requires i < |events|
  {
    events[i].TcpRecvError? || events[i].TcpShutdown? || (TcpFlushes(events, i) && !events[i].writeOk)
  }

  lemma TcpReadingsStep(events: seq<TcpEvent>, i: nat)
    requires i < |events|
    ensures events[i].TcpReading? ==> TcpReadings(events[..i + 1]) == TcpReadings(events[..i]) + [events[i].data]
    ensures !events[i].TcpReading? ==> TcpReadings(events[..i + 1]) == TcpReadings(events[..i])
  {
    assert events[..i + 1][..i] == events[..i];
    assert TcpReadings(events[..i]) + [] == TcpReadings(events[..i]);
  }

  /** The TCP handler's buffer and output agree with the readings received so far:
      together they encode the kept readings, the buffer holds the readings of the
      current batch, and only whole batches have been written. */
  ghost predicate TcpState(rs: seq<AccelData>, written: seq<u8>, buf: seq<u8>) {
    && written + buf == EncodeAll(Kept(rs))
    && |buf| == RECORD_SIZE * (|rs| % (BATCH + 1))
    && |written| % TCP_CAPACITY == 0
  }

  lemma TcpStateFull(rs: seq<AccelData>, written: seq<u8>, buf: seq<u8>)
    requires TcpState(rs, written, buf)
    ensures |buf| <= TCP_CAPACITY
    ensures |buf| < TCP_CAPACITY <==> |rs| % (BATCH + 1) != BATCH
  {
  }

  lemma ModStep(n: nat)
    ensures (n + 1) % (BATCH + 1) == if n % (BATCH + 1) == BATCH then 0 else n % (BATCH + 1) + 1
  {
    var q := n / (BATCH + 1);
    assert n == (BATCH + 1) * q + n % (BATCH + 1);
    if n % (BATCH + 1) == BATCH {
      assert n + 1 == (BATCH + 1) * (q + 1);
    } else {
      assert n + 1 == (BATCH + 1) * q + (n % (BATCH + 1) + 1);
    }
  }

  /** A reading arriving at a buffer with room is appended to it. */
  lemma TcpStateAppend(rs: seq<AccelData>, written: seq<u8>, buf: seq<u8>, d: AccelData)
    requires TcpState(rs, written, buf) && |buf| < TCP_CAPACITY
    ensures TcpState(rs + [d], written, buf + AsBytes(d))
  {
    TcpStateFull(rs, written, buf);
    KeptStep(rs, d);
    EncodeAllAppend(Kept(rs), [d]);
    EncodeOne(d);
    Assoc(written, buf, AsBytes(d));
    ModStep(|rs|);
  }

  lemma EncodeOne(d: AccelData)
    ensures EncodeAll([d]) == AsBytes(d)
  {
    assert [d][..0] == [];
  }

  /** A reading arriving at a full buffer gets the buffer written and is dropped. */
  lemma TcpStateFlush(rs: seq<AccelData>, written: seq<u8>, buf: seq<u8>, d: AccelData)
    requires TcpState(rs, written, buf) && |buf| >= TCP_CAPACITY
    ensures TcpState(rs + [d], written + buf, [])
  {
    TcpStateFull(rs, written, buf);
    KeptStep(rs, d);
    assert Kept(rs) + [] == Kept(rs);
    ModStep(|rs|);
    assert (written + buf) + [] == written + buf;
    var q := |written| / TCP_CAPACITY;
    assert |written| == TCP_CAPACITY * q;
    assert |written + buf| == TCP_CAPACITY * (q + 1);
  }

  /** No event before the i-th ends the handler. */
  ghost predicate TcpRunsTo(events: seq<TcpEvent>, i: nat)
    requires i <= |events|
  {
    forall j :: 0 <= j < i ==> !TcpEnds(events, j)
  }

  /** handle_client_tcp, after the socket is split: `written` is everything written to
      the socket, `handled` the number of events processed before the one that ends it. */
  method HandleClientTcp(events: seq<TcpEvent>)
    returns (written: seq<u8>, buf: seq<u8>, counter: nat, logged: seq<nat>, handled: nat)
    ensures handled <= |events| && TcpRunsTo(events, handled)
    ensures handled < |events| ==> TcpEnds(events, handled)
    ensures TcpState(TcpReadings(events[..handled]), written, buf)
    ensures Sum(logged) + counter == |TcpReadings(events[..handled])|
  {
    written, buf, counter, logged := [], [], 0, [];
    var i := 0;
    while i < |events|
      invariant i <= |events|
      invariant TcpRunsTo(events, i)
      invariant TcpState(TcpReadings(events[..i]), written, buf)
      invariant Sum(logged) + counter == |TcpReadings(events[..i])|
    {
      var e := events[i];
      ghost var rs := TcpReadings(events[..i]);
      TcpReadingsStep(events, i);
      TcpStateFull(rs, written, buf);
      match e {
        case TcpShutdown => break;
        case TcpRecvError => break;
        case TcpTimer =>
          SumAppend(logged, [counter]);
          logged, counter := logged + [counter], 0;
        case TcpReading(data, writeOk) =>
          if |buf| < TCP_CAPACITY {
            TcpStateAppend(rs, written, buf, data);
            buf := buf + AsBytes(data);
          } else {
            if !writeOk {
              break;
            }
            TcpStateFlush(rs, written, buf, data);
            written, buf := written + buf, [];
          }
          counter := counter + 1;
      }
      i := i + 1;
    }
    handled := i;
  }

  /** What a TCP client reads: the k-th 20-byte record of the written stream unpacks to
      the reading received k + k / 128 th. */
  lemma TcpStreamRecord(rs: seq<AccelData>, written: seq<u8>, buf: seq<u8>, k: nat)
    requires written + buf == EncodeAll(Kept(rs))
    requires RECORD_SIZE * k + RECORD_SIZE <= |written|
    ensures k + k / BATCH < |rs|
    ensures Unpack(written[RECORD_SIZE * k..RECORD_SIZE * k + RECORD_SIZE]) == Some(rs[k + k / BATCH])
  {
    var lo, hi := RECORD_SIZE * k, RECORD_SIZE * k + RECORD_SIZE;
    KeptIndex(rs);
    assert k < |Kept(rs)|;
    KeptAt(rs, k);
    EncodeAllRecordAt(Kept(rs), k);
    SliceOfPrefix(written, buf, EncodeAll(Kept(rs)), lo, hi);
  }

  // ---------------------------------------------------------------------------
  // WebSocket

  /** A message from the client side, as `incoming.next()` yields it. */
  datatype Incoming = CloseMessage | OtherMessage | EndOrError

  /** What one turn of the WebSocket handler's loop sees, each with the time at the end
      of the turn: a reading (and whether sending a full batch succeeds), a receive
      error, a client message, or the running flag found false. */
  datatype WsEvent =
    | WsReading(data: AccelData, sendOk: bool, t: int)
    | WsRecvError
    | WsIncoming(msg: Incoming, t: int)
    | WsShutdown

  function WsReadings(events: seq<WsEvent>): seq<AccelData> {
    if events == [] then []
    else
      WsReadings(events[..|events| - 1])
        + (if events[|events| - 1].WsReading? then [events[|events| - 1].data] else [])
  }

  predicate WsFlushes(events: seq<WsEvent>, i: nat)
    requires i < |events|
  {
    events[i].WsReading? && |WsReadings(events[..i])| % (BATCH + 1) == BATCH
  }

  predicate WsEnds(events: seq<WsEvent>, i: nat)
    requires i < |events|
  {
    || events[i].WsRecvError?
    || events[i].WsShutdown?
    || (events[i].WsIncoming? && events[i].msg != OtherMessage)
    || (WsFlushes(events, i) && !events[i].sendOk)
  }

  function Flatten(batches: seq<seq<AccelData>>): seq<AccelData> {
    if batches == [] then [] else Flatten(batches[..|batches| - 1]) + batches[|batches| - 1]
  }

  lemma WsReadingsStep(events: seq<WsEvent>, i: nat)
    requires i < |events|
    ensures events[i].WsReading? ==> WsReadings(events[..i + 1]) == WsReadings(events[..i]) + [events[i].data]
    ensures !events[i].WsReading? ==> WsReadings(events[..i + 1]) == WsReadings(events[..i])
  {
    assert events[..i + 1][..i] == events[..i];
    assert WsReadings(events[..i]) + [] == WsReadings(events[..i]);
  }

  lemma FlattenStep(batches: seq<seq<AccelData>>, b: seq<AccelData>)
    ensures Flatten(batches + [b]) == Flatten(batches) + b
  {
    assert (batches + [b])[..|batches|] == batches;
  }

  /** The WebSocket handler's batches and buffer agree with the readings received so
      far: every batch holds exactly 128 readings, and batches and buffer together are
      the kept readings in arrival order. */
  ghost predicate WsState(rs: seq<AccelData>, sent: seq<seq<AccelData>>, buf: seq<AccelData>) {
    && (forall j :: 0 <= j < |sent| ==> |sent[j]| == BATCH)
    && Flatten(sent) + buf == Kept(rs)
    && |buf| == |rs| % (BATCH + 1)
  }

  lemma WsStateAppend(rs: seq<AccelData>, sent: seq<seq<AccelData>>, buf: seq<AccelData>, d: AccelData)
    requires WsState(rs, sent, buf) && |buf| < BATCH
    ensures WsState(rs + [d], sent, buf + [d])
  {
    KeptStep(rs, d);
    Assoc(Flatten(sent), buf, [d]);
    ModStep(|rs|);
  }

  lemma WsStateFlush(rs: seq<AccelData>, sent: seq<seq<AccelData>>, buf: seq<AccelData>, d: AccelData)
    requires WsState(rs, sent, buf) && |buf| >= BATCH
    ensures WsState(rs + [d], sent + [buf], [])
  {
    KeptStep(rs, d);
    ModStep(|rs|);
    FlattenStep(sent, buf);
    assert Kept(rs) + [] == Kept(rs);
    assert Flatten(sent + [buf]) + [] == Flatten(sent + [buf]);
  }

  ghost predicate WsRunsTo(events: seq<WsEvent>, i: nat)
    requires i <= |events|
  {
    forall j :: 0 <= j < i ==> !WsEnds(events, j)
  }

  /** The WebSocket handler's counter check at the end of every turn: once more than a
      second has passed since the last check that fired, log the counter, reset it and
      restart the period; no count is lost either way. */
  method Tally(logged: seq<nat>, counter: nat, now: int, t: int) returns (logged': seq<nat>, counter': nat, now': int)
    ensures Sum(logged') + counter' == Sum(logged) + counter
    ensures t - now > LOG_PERIOD_MICROS as int ==> logged' == logged + [counter] && counter' == 0 && now' == t
    ensures t - now <= LOG_PERIOD_MICROS as int ==> logged' == logged && counter' == counter && now' == now
  {
    if t - now > LOG_PERIOD_MICROS as int {
      SumAppend(logged, [counter]);
      logged', counter', now' := logged + [counter], 0, t;
    } else {
      logged', counter', now' := logged, counter, now;
    }
  }

  /** handle_client_wsock after the upgrade: `sent` holds the batches sent, each the
      list serialized into one text message. */
  method HandleClientWsock(start: int, events: seq<WsEvent>)
    returns (sent: seq<seq<AccelData>>, buf: seq<AccelData>, counter: nat, logged: seq<nat>, handled: nat)
    ensures handled <= |events| && WsRunsTo(events, handled)
    ensures handled < |events| ==> WsEnds(events, handled)
    ensures WsState(WsReadings(events[..handled]), sent, buf)
    ensures Sum(logged) + counter == |WsReadings(events[..handled])|
  {
    sent, buf, counter, logged := [], [], 0, [];
    var now := start;
    var i := 0;
    while i < |events|
      invariant i <= |events|
      invariant WsRunsTo(events, i)
      invariant WsState(WsReadings(events[..i]), sent, buf)
      invariant Sum(logged) + counter == |WsReadings(events[..i])|
    {
      var e := events[i];
      ghost var rs := WsReadings(events[..i]);
      WsReadingsStep(events, i);
      var t := now;
      match e {
        case WsShutdown => break;
        case WsRecvError => break;
        case WsIncoming(msg, time) =>
          if msg != OtherMessage {
            break;
          }
          t := time;
        case WsReading(data, sendOk, time) =>
          if |buf| < BATCH {
            WsStateAppend(rs, sent, buf, data);
            buf := buf + [data];
          } else {
            if !sendOk {
              break;
            }
            WsStateFlush(rs, sent, buf, data);
            sent, buf := sent + [buf], [];
          }
          counter := counter + 1;
          t := time;
      }
      logged, counter, now := Tally(logged, counter, now, t);
      i := i + 1;
    }
    handled := i;
  }

  lemma {:induction false} FlattenIndex(batches: seq<seq<AccelData>>, j: nat, k: nat)
    requires forall l :: 0 <= l < |batches| ==> |batches[l]| == BATCH
    requires j < |batches| && k < BATCH
    ensures |Flatten(batches)| == BATCH * |batches|
    ensures Flatten(batches)[BATCH * j + k] == batches[j][k]
  {
    var n := |batches| - 1;
    if j < n {
      FlattenIndex(batches[..n], j, k);
    } else {
      if n > 0 {
        FlattenIndex(batches[..n], 0, 0);
      } else {
        assert Flatten(batches[..n]) == [];
      }
    }
  }

  /** What a WebSocket client reads: reading k of batch j is the reading received
      129 j + k th. */
  lemma WsBatchContents(rs: seq<AccelData>, sent: seq<seq<AccelData>>, buf: seq<AccelData>, j: nat, k: nat)
    requires forall l :: 0 <= l < |sent| ==> |sent[l]| == BATCH
    requires Flatten(sent) + buf == Kept(rs)
    requires j < |sent| && k < BATCH
    ensures (BATCH + 1) * j + k < |rs| && sent[j][k] == rs[(BATCH + 1) * j + k]
  {
    FlattenIndex(sent, j, k);
    var p := BATCH * j + k;
    assert Kept(rs)[p] == sent[j][k];
    KeptAt(rs, p);
    DivBatch(j, k);
  }
}
