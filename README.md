# Accelerometer acquisition and streaming, modelled in Dafny

The system reads one or more ADXL355 accelerometers over SPI on a Raspberry Pi.
For each sample it builds a 20-byte reading record: device index, microseconds since
the previous sample, and x/y/z. It broadcasts the records to network clients over TCP
(raw packed records in 128-record batches) or over WebSocket (JSON arrays of 128
records). Python clients receive the records, file them per device in bounded sample
buffers with running time stamps, and meter the data rate.

The model has one module per part of the system:

- `Adxl355` (adxl355.dfy) is the driver's register protocol:
  - command bytes;
  - the initialisation sequence of `new`;
  - `start`;
  - the temperature read;
  - the 20-bit two's-complement decoding of the XDATA frame.

  The SPI bus is a class that records every transaction it carries. Two fixed oracles
  decide what the device answers and which transactions fail.
- `Bytes` and `AccelRecord` (bytes.dfy, accel_data.dfy) are the packed record:
  - its little-endian byte view;
  - the clients' `'<IIfff'` decoding;
  - the byte stream of many records.
- `Acquisition` (accel_daemon.dfy) is the per-device acquisition engine:
  - the data-ready callback, as a class over its cells (previous trigger time, rate
    window and triggered latch), specified by a pure step function and a fold over
    callback histories;
  - the polling loop of accelerator_task;
  - the start-up rule that keeps or skips each configured device.
- `Net` (net.dfy) is the TCP and WebSocket client handlers. They are methods with
  loops over the sequence of events each handler sees, where an event is a reading, a
  receive error, the timer, an incoming message or shutdown.
- `DataBuffers` (data_buffer.dfy) is the clients' bounded deque: a class, and the
  power-of-two capacity rounding.
- `DataRates` (data_rate.dfy) is the clients' rate meter: a class specified by a step
  function, with rates as real numbers.
- `Clients` (ingest.dfy) is the clients' per-id reconstruction. It holds the filing
  step, and the receive loops of the binary and JSON clients as methods over the
  results of their `recv` calls. It also gives a reference description of the store
  that filing a sequence of records produces.

Time in the daemon is an abstract count of microseconds, handed to the model as
parameters. The meter's clock is integer nanoseconds. Float values are carried as
their 32-bit patterns. Register addresses are a parameter (`RegisterMap`), because the
register table is not part of this model.

## Model

| member | source | states |
|---|---|---|
| `Adxl355.Applied` | adxl355-rs/src/lib.rs:99-105 | each of rate, filter corner and range is the configured value when one is given, and the default otherwise |
| `Adxl355.WriteCommand` | adxl355-rs/src/lib.rs:146-150 | a write command has bit 0 clear and the register address in bits 7..1 |
| `Adxl355.ReadCommand` | adxl355-rs/src/lib.rs:152-157 | a read command has bit 0 set and the register address in bits 7..1 |
| `Adxl355.CommandsAreUnambiguous` | adxl355-rs/src/lib.rs:71-72 | no read command equals a write command, and a command determines its 7-bit register |
| `Adxl355.DecodeAxisIsTwosComplement` | adxl355-rs/src/lib.rs:182-193 | each axis is the two's-complement value of the 20-bit field made of the first byte, the second byte and the high nibble of the third |
| `Adxl355.DecodeAxisRange` | adxl355-rs/src/lib.rs:182-193 | every decoded axis lies in [-524288, 524287] |
| `Adxl355.DecodeAxisExtremes` | adxl355-rs/src/lib.rs:76 | the largest decodable value is ACCEL_MAX_I20 = 524287, and the smallest is -524288 |
| `Adxl355.DecodeAxisIgnoresLowNibble` | adxl355-rs/src/lib.rs:184 | the low nibble of the third byte never changes the decoded value |
| `Adxl355.DecodeEncodeAxis` | adxl355-rs/src/lib.rs:178-185 | every 20-bit value sent by the device in its three-byte form decodes back to itself |
| `Adxl355.DecodeFrameInRange` | adxl355-rs/src/lib.rs:174-195 | x comes from bytes 1-3, y from 4-6 and z from 7-9; each is in the 20-bit range; byte 0 plays no part |
| `Adxl355.TempRaw` | adxl355-rs/src/lib.rs:132-135 | the temperature is the low nibble of the first byte followed by the second byte, so it is below 4096 |
| `Adxl355.InitOutcomeCharacterised` | adxl355-rs/src/lib.rs:99-120 | `new` succeeds exactly when none of its three transactions fails; otherwise it reports the first failing one, after which nothing is issued; the device id plays no part |
| `Adxl355.Device.WriteReg` | adxl355-rs/src/lib.rs:146-150 | a write sends the write command and the value, and fails exactly when the bus transaction fails |
| `Adxl355.Device.ReadReg` | adxl355-rs/src/lib.rs:152-157 | a read transfers the read command and a zero, and returns the second byte received unless the transfer fails |
| `Adxl355.Device.GetDeviceId` | adxl355-rs/src/lib.rs:138-144 | the device id is a read of DEVID, with its error passed on |
| `Adxl355.Device.Read` | adxl355-rs/src/lib.rs:159-161 | a read into a buffer discards the transfer error |
| `Adxl355.Device.Configure` | adxl355-rs/src/lib.rs:107-119 | new issues a DEVID read, a FILTER write of `(hpf << 4) \| odr` and a RANGE write, in order, stopping after the first that fails, with the result InitOutcome |
| `Adxl355.Device.Start` | adxl355-rs/src/lib.rs:123-125 | start writes 0 to POWER_CTL |
| `Adxl355.Device.ReadTempRaw` | adxl355-rs/src/lib.rs:128-136 | a 3-byte TEMP2 read whose answer is decoded by TempRaw, so below 4096; 0 when the transfer fails |
| `Adxl355.Device.AccelRaw` | adxl355-rs/src/lib.rs:173-197 | one 10-byte transfer starting with the XDATA3 read command, decoded by DecodeFrame; the result is always Ok |
| `Adxl355.FailedFrameIsZero` | adxl355-rs/src/lib.rs:174-176 | a frame whose transfer failed decodes to the zero vector |
| `Adxl355.New` | adxl355-rs/src/lib.rs:99-120 | the driver applies the configuration over the defaults, and is returned exactly when initialisation succeeds, with the error of the failing transaction otherwise |
| `AccelRecord.FromTriple` | accel-data/src/lib.rs:23-33 | the record from (a, b, v) has idx a, gap b and the components of v |
| `AccelRecord.AsBytes` | accel-data/src/lib.rs:37-44 | the byte view is exactly 20 bytes |
| `AccelRecord.WordAtAsBytes` | accel-data/src/lib.rs:6-21 | field i (idx, gap, x, y, z in that order) sits little-endian at byte offset 4i |
| `AccelRecord.Unpack` | python-client/tcp_thread.py:107 | unpacking succeeds exactly on 20-byte chunks |
| `AccelRecord.UnpackAsBytes` | accel-data/src/lib.rs:37-44 | unpacking the bytes of a record with `'<IIfff'` recovers idx, gap and the bit patterns of x/y/z |
| `AccelRecord.AsBytesUnpack` | python-client/tcp_thread.py:107 | every 20-byte chunk is the byte view of the record it unpacks to |
| `AccelRecord.EncodeAllAppend` | accel-data/src/net.rs:54 | the bytes of consecutive records are the concatenation of their bytes |
| `AccelRecord.EncodeAllRecordAt` | accel-data/src/net.rs:54 | record i of a stream occupies bytes 20i to 20i+20 and unpacks to that record |
| `Acquisition.Elapsed` | accel-daemon/src/accel.rs:142 | the duration since an earlier instant is the difference, and it saturates at zero |
| `Acquisition.ToU32` | accel-daemon/src/accel.rs:142 | the `as u32` truncation keeps every value below 2^32 |
| `Acquisition.Publish` | accel-daemon/src/accel.rs:155-168 | a reading is sent exactly when the read succeeded and there is a subscriber, and it carries the index, the gap and the read vector |
| `Acquisition.RateStep` | accel-daemon/src/accel.rs:144-153 | one callback counts itself in the window; the window is logged exactly when it had started and more than a second has passed, with the count including this callback, and then restarts at this callback with a zero count; the first callback only opens the window |
| `Acquisition.RateRunCountsEveryCallback` | accel-daemon/src/accel.rs:144-153 | every callback is counted once, in a logged window or in the open one, whatever its read did |
| `Acquisition.RateWindowStaysWithinASecond` | accel-daemon/src/accel.rs:144-153 | with a monotonic clock, the window start is installed by the first callback and is never later than, nor more than a second before, the latest callback |
| `Acquisition.RunFromFresh` | accel-daemon/src/accel.rs:135-172 | after any history, the slot holds the last trigger time, the latch is set iff something triggered, the first gap is 0, and each later gap is the truncated time since the previous trigger, even one whose read failed |
| `Acquisition.Callback.constructor` | accel-daemon/src/accel.rs:66-71 | the cells start empty: no trigger time, latch clear, empty rate window |
| `Acquisition.Callback.Trigger` | accel-daemon/src/accel.rs:127-172 | one callback leaves the cells and returns the reading and log as the step function says, keeping "latch set iff a time is stored" |
| `Acquisition.Iterations` | accel-daemon/src/accel.rs:201 | the loop runs up to and not including the first check that sees `running` false |
| `Acquisition.PollLoop` | accel-daemon/src/accel.rs:200-227 | the loop sends exactly PollOutput of the iterations of the steps before `running` goes false |
| `Acquisition.PrevTimeBeforeFirstRead` | accel-daemon/src/accel.rs:200-205 | until a read succeeds, gaps are measured from the instant taken before the loop, and failed reads do not move it |
| `Acquisition.PollOutputCarriesIndex` | accel-daemon/src/accel.rs:203-216 | at most one reading per iteration, each carrying the device index it was started with |
| `Acquisition.AcceleratorTask` | accel-daemon/src/accel.rs:180-241 | accelerator_task sends nothing unless SPI, driver creation and start all succeed, and then sends what the loop sends |
| `Acquisition.AcceleratorInit` | accel-daemon/src/accel.rs:28-125 | start-up fails exactly when the GPIO controller cannot be opened; otherwise it returns the pins of the fully set-up devices, and an empty list when none was set up is still a success |
| `Acquisition.ArmedPinsAreTheSetUpDescriptors` | accel-daemon/src/accel.rs:33-120 | start-up keeps at most one pin per descriptor, in order, exactly for the descriptors whose pin, SPI, driver, start and interrupt set-up all succeed |
| `Net.KeptStep` | accel-data/src/net.rs:53-61 | a reading is appended to a batch unless it is the 129th since the last flush, which is dropped |
| `Net.KeptIndex` | accel-data/src/net.rs:53-61 | of n readings, n - n/129 are kept, and the k-th kept one is reading k + k/128 |
| `Net.TcpStateFull` | accel-data/src/net.rs:45-54 | the buffer never exceeds 128 x 20 bytes, and it is full exactly when the next reading is the one to be dropped |
| `Net.TcpStateAppend` | accel-data/src/net.rs:53-54 | a reading meeting a buffer with room is appended as its 20 bytes |
| `Net.TcpStateFlush` | accel-data/src/net.rs:55-61 | a reading meeting a full buffer gets the buffer written and cleared, and goes into no batch |
| `Net.HandleClientTcp` | accel-data/src/net.rs:36-77 | it stops at the first receive error, shutdown or failed write; the bytes written plus the buffer are the encoding of the kept readings; only whole batches are written; the logged counts and the counter add up to the readings received |
| `Net.TcpStreamRecord` | accel-data/src/net.rs:54-57 | record k of the written stream unpacks to received reading k + k/128 |
| `Net.WsStateAppend` | accel-data/src/net.rs:104-105 | a reading meeting a buffer with room is pushed |
| `Net.WsStateFlush` | accel-data/src/net.rs:106-116 | a reading meeting a full buffer gets the 128 buffered readings sent as one batch, and goes into no batch |
| `Net.Tally` | accel-data/src/net.rs:138-142 | once more than a second has elapsed, the counter is logged and reset and the clock restarts; otherwise nothing changes |
| `Net.HandleClientWsock` | accel-data/src/net.rs:80-144 | it stops at a receive error, a send error, a close message, end of stream or shutdown; the batches sent are 128 readings each, in arrival order, with the dropped readings left out; the counts add up to the readings received |
| `Net.WsBatchContents` | accel-data/src/net.rs:104-116 | element k of batch j is received reading 129j + k |
| `DataBuffers.LastNIsSuffix` | python-client/tcp_thread.py:18-21 | what a bounded deque keeps is the newest part of what was appended |
| `DataBuffers.BoundedAppendEvictsOldest` | python-client/app_tcp.py:24-27 | an append keeps at most maxlen items and ends with the new item; on a full deque it drops exactly the oldest one |
| `DataBuffers.AppendAllKeepsNewest` | python-client/app_wsock.py:20-23 | after any appends, the deque holds the last maxlen items of everything, in insertion order |
| `DataBuffers.PyIndex` | python-client/tcp_thread.py:26-27 | indexing counts from the front for non-negative indices and from the back for negative ones; anything else is an IndexError |
| `DataBuffers.NextPow2IsSmallestPowerAbove` | python-client/tcp_thread.py:17 | the rounded capacity is at least the request, and half of it is below the request |
| `DataBuffers.DefaultPow2Capacity` | python-client/tcp_thread.py:15-17 | the default request of 2000 becomes 2048 |
| `DataBuffers.DataBuffer.constructor` | python-client/app_tcp.py:23-24 | a new buffer is empty with the requested maxlen |
| `DataBuffers.DataBuffer.PowerOfTwo` | python-client/tcp_thread.py:15-18 | the thread client's buffer is empty, with maxlen rounded up to a power of two |
| `DataBuffers.DataBuffer.Append` | python-client/tcp_thread.py:20-21 | append is the bounded append, and the buffer stays within maxlen |
| `DataBuffers.DataBuffer.Clear` | python-client/app_tcp.py:29-30 | clear empties the buffer |
| `DataBuffers.DataBuffer.Get` | python-client/app_wsock.py:28-29 | indexing is Python indexing of the contents; index -1 is the newest item |
| `DataBuffers.DataBuffer.Length` | python-client/tcp_thread.py:29-30 | the length is the number of items held |
| `DataRates.ScaleBitsAsWrittenNeverMegabits` | python-client/tcp_thread.py:63-68 | the Mbps branch is unreachable: any rate above 1024 is shown in Kbps |
| `DataRates.ScaleBits` | python-client/tcp_thread.py:62-68 | the corrected selection shows a rate in Mbps above 2^20, in Kbps above 2^10, and in bps otherwise; scaled value times unit is the rate |
| `DataRates.ScalePackets` | python-client/tcp_thread.py:69-71 | packet rates above 1000 are shown in thousands |
| `DataRates.BitRateAsWrittenIsEightfold` | python-client/tcp_thread.py:55-61 | the bit rate as written is eight times the true one |
| `DataRates.BitRate` | python-client/tcp_thread.py:55 | the corrected bit rate times the window's length is eight times the bytes counted |
| `DataRates.ReportOf` | python-client/tcp_thread.py:55-71 | the printed data rate, scaled back and multiplied by the window's length, is the bits counted |
| `DataRates.Step` | python-client/tcp_thread.py:46-60 | a closed window lasted longer than update_rate and holds the bytes and packets counted since the window opened, including this call |
| `DataRates.FirstCallOnlyOpensTheWindow` | python-client/tcp_thread.py:47-52 | the first call counts its bytes and its packet, records `last` and reports nothing |
| `DataRates.RunCountsEveryCall` | python-client/tcp_thread.py:48-59 | every call is counted once, in a closed window or in the open one |
| `DataRates.RunCountsEveryByte` | python-client/tcp_thread.py:47-59 | every byte count passed in is in a closed window or in the open one |
| `DataRates.RunWindowsOutlastTheRate` | python-client/tcp_thread.py:53-54 | every reported window lasted longer than update_rate |
| `DataRates.DataRate.constructor` | python-client/tcp_thread.py:39-44 | a new meter has zero counters, no `last`, and records the rate and the start instant |
| `DataRates.DataRate.Update` | python-client/tcp_thread.py:46-73 | update changes the counters and `last` as Step says, and prints a report exactly when Step closes a window |
| `Clients.Ingest` | python-client/tcp_thread.py:109-122 | filing fails (a division by zero) exactly for a zero gap of a known id; otherwise every buffer stays non-empty and has a packet count |
| `Clients.IngestKeepsValid` | python-client/app_tcp.py:138-151 | filing keeps the ids listed once, matching the buffers, with buffers within maxlen; a new id is appended to `ids`, a known one leaves it unchanged |
| `Clients.FirstSeenListsEachOnce` | python-client/app_tcp.py:138-143 | the id list has no duplicates and lists exactly the ids seen |
| `Clients.IngestAllFromEmpty` | python-client/app_tcp.py:133-151 | filing from the empty store fails exactly when a known id comes with a zero gap; otherwise ids are in first-seen order, each buffer is the newest maxlen samples of its id, stamped with the running gap sum, and each count is that id's number of records |
| `Clients.ReflectedId` | python-client/app_tcp.py:138-151 | per id: the packet count is its number of records, the buffer holds at most maxlen samples, and the newest is stamped with the sum of all its gaps (the first record's gap included) |
| `Clients.ChunkStepAsWritten` | python-client/tcp_thread.py:104-134 | one turn of the loop as written keeps the store well formed |
| `Clients.ClosedPeerSpinsAsWritten` | python-client/tcp_thread.py:128-130 | as written, the empty chunk of a closed connection is skipped like any short chunk |
| `Clients.ChunkStep` | python-client/tcp_thread.py:104-134 | the corrected turn ends the loop on an empty chunk, and is otherwise the turn as written |
| `Clients.ChunkStepCases` | python-client/app_tcp.py:245-251 | a non-empty chunk that is not 20 bytes is skipped without touching the store; a 20-byte chunk is filed; a failed recv, a closed connection or a division by zero ends the loop |
| `Clients.TcpClient` | python-client/tcp_thread.py:102-138 | the receive loop's store and open/closed state are TcpRun of the recv results |
| `Clients.TcpRunStaysClosed` | python-client/tcp_thread.py:131-134 | once the socket is closed, later results change nothing |
| `Clients.TcpRunFilesDecoded` | python-client/app_tcp.py:133-151 | while the loop runs, its store is what filing the unpacked records from the empty store gives |
| `Clients.TcpRunKeepsRunning` | python-client/app_tcp.py:245-251 | the loop keeps running unless a recv fails, the connection closes, or the unpacked records divide by zero |
| `Clients.DecodedRecordChunks` | python-client/tcp_thread.py:105-107 | when every recv returns one whole record, the client unpacks exactly the records the server packed |
| `Clients.IngestBatch` | python-client/app_wsock.py:110-138 | processing one JSON batch gives BatchRun's store |
| `Clients.BatchRunStaysAbandoned` | python-client/app_wsock.py:136-138 | an exception in a batch abandons the rest of that batch |
| `Clients.WsClient` | python-client/app_wsock.py:101-138 | the receive loop's store and state are WsRun of the messages: text holding a JSON array is processed as a batch, other text and binary messages are skipped, and a failed recv ends the loop |
| `Clients.WsRunStaysClosed` | python-client/app_wsock.py:224-227 | once recv fails, later messages change nothing |
| `Clients.IncompleteObjectsAreSkipped` | python-client/app_wsock.py:111-120 | an object missing idx, gap, x, y or z is skipped, and the rest of the batch is processed as if it were absent |
| `Clients.CompleteBatchFilesAll` | python-client/app_wsock.py:121-135 | a batch of complete objects completes exactly when filing their records succeeds, and then leaves that store |
| `Clients.TcpRunKeepsValid` | python-client/app_tcp.py:133-151 | every store the binary receive loop reaches lists each id once, matches the buffers, and keeps each buffer within maxlen |
| `Clients.BatchRunKeepsValid` | python-client/app_wsock.py:110-138 | a JSON batch, completed or abandoned, leaves a valid store valid |
| `Clients.WsRunKeepsValid` | python-client/app_wsock.py:101-138 | every store the JSON receive loop reaches is valid for its maxlen |
| `Clients.AppTcpClient` | python-client/app_tcp.py:138-143 | the plotting binary client is the binary loop with buffers of 5000 samples, which they never exceed |
| `Clients.ThreadTcpClient` | python-client/tcp_thread.py:109-113 | the thread client is the binary loop with buffers of 2048 samples (its request of 2000 rounded up to a power of two), which they never exceed |
| `Clients.AppWsockClient` | python-client/app_wsock.py:121-126 | the plotting JSON client is the JSON loop with buffers of 2000 samples, which they never exceed |

## Left out

- Floating point is left out. The x/y/z values are opaque 32-bit patterns. The driver's
  `accel_norm` scaling of raw samples to g is not part of this model, and neither are
  the clients' derivative columns dx/dy/dz. The callback's `elapsed > 1.0` test on f32
  seconds is modelled as an exact comparison of integer microseconds.
- The meter's rates are real numbers, so float rounding and the printed formatting
  are left out. The update_rate is taken in exact seconds.
- The clients' time stamps are exact integer sums of microsecond gaps. The binary
  clients scale each gap by 1e-6 in floating point, so their stamps are seconds.
- Atomics, interrupts, threads and Tokio's `select!` scheduling are left out. Each
  handler sees one event at a time, in a fixed order. In the TCP handler the 1-second
  timer is a fresh sleep on every turn, so under a steady stream of readings it may
  never fire. The model lets it fire only as a separate event.
- Sleeps, connection set-up, logging text, the plotting and netCDF output, and the thread
  client's dataframe queue are left out.
- `Acquisition.Callback.Trigger` and `Acquisition.PollLoop` accept a failed read (`None`), but with this
  driver `accel_raw` always returns Ok, so `accel_norm` never fails and that case is
  never reached. The model covers more inputs than the system produces.
- The thread client calls `datarate.update(len(bytes))` on every recv (tcp_thread.py
  line 106). `Clients.TcpClient` leaves that call out: the meter (`DataRates`) is
  modelled on its own, and its counts are not tied to the chunks of `TcpRun`.
- `Vec::with_capacity` is assumed to give exactly the requested capacity.
- The model assumes a failed SPI transfer leaves the buffer as it was. embedded-hal
  does not promise this.
- The record's byte view assumes a little-endian host.
- `Adxl355.Device.AccelRaw` returns the raw I32x3 sample. The trait's `accel_norm`,
  built on it, is not part of this model. The register table (`register.rs`) and the
  configuration enums (`conf.rs`) are not part of this model either: their values are
  parameters.
- A short TCP read (1 to 19 bytes) is modelled as one skipped chunk. Re-alignment of
  the stream after it is not modelled: each recv result is a given chunk.
- The JSON text itself is not modelled. A message is given as already parsed: not
  JSON, not an array, or an array of objects with each key present or missing.
  Values of unexpected JSON types are not modelled.
- `DataRates.Step`: requires a non-negative update_rate. With a negative one, two
  calls that read the same counter value would divide by a zero elapsed time.
- `DataRates.DataRate.constructor`: requires a non-negative update_rate, for the same
  reason.
- `DataBuffers.DataBuffer.PowerOfTwo`: requires a maxlen of at least 1. The source
  raises for 0, since the logarithm is minus infinity, and for negative sizes.
- `Clients.Ingest`: requires a maxlen of at least 1 and a store in which every buffer
  is non-empty and has a packet count. Every client uses a maxlen of at least 1, and
  every store the clients reach has that shape.

## Findings

| source | as written | input that shows it | evidently intended | confidence | as-written member | corrected member |
|---|---|---|---|---|---|---|
| python-client/tcp_thread.py:63-68 | the Kbps test `> 1024` comes before the Mbps test `> 1024*1024` | a rate of 2097152 bps is shown as 2048 Kbps | Mbps for rates above 2^20 | not executed; high | `DataRates.ScaleBitsAsWrittenNeverMegabits` | `DataRates.ScaleBits` |
| python-client/tcp_thread.py:55-61 | the byte count is multiplied by 8, then the rate is multiplied by 8 again | 20 bytes in one second are shown as 1280 bps | 160 bps | not executed; high | `DataRates.BitRateAsWrittenIsEightfold` | `DataRates.BitRate` |
| python-client/tcp_thread.py:105-130 | an empty `recv` result fails to unpack and the loop continues | when the server closes the connection, every `recv` returns no bytes, so the loop spins forever | end the loop, as on a failed recv | not executed; high | `Clients.ClosedPeerSpinsAsWritten` | `Clients.ChunkStep` |

- Rows 1 and 2: the meter's report (`DataRates.ReportOf` and `DataRate.Update`) uses
  the corrected `ScaleBits` and `BitRate`.
- Row 3: `ChunkStepAsWritten` models the written turn. The binary loops (`TcpRun`,
  `TcpClient`) use the corrected `ChunkStep`. app_tcp.py lines 135-136 and 245-247 have
  the same behaviour.
