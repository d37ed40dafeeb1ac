# JSON record-boundary filter for a TCP proxy: a Dafny model

The JSON filter is a data filter for a TCP proxy. Each time data arrives on a
channel, it decides how many of the leading `avail` bytes hold complete
records, meaning newline-delimited JSON values, and may be forwarded. The
channel's bytes live in a ring buffer. The first `left` of them are
contiguous from the handler's start position. The rest continue at the origin
of the allocation. The filter has four data handlers:

- the record driver `json_tcp_data_parser`, which calls a JSON parser over the ring buffer repeatedly;
- a byte-by-byte newline scan;
- a `memchr` newline scan;
- a no-op handler that forwards everything.

A keyword parser selects one of them.

The model uses indices instead of pointers. The origin is index 0 and memory is
a `seq<Byte>`. The modules are:

- `Ring` (ring.dfy): the ring arithmetic. This covers the wrap-aware distance
  that the driver adds per record, the stream size computed by the stream
  constructor, and the cursor step of `Take` with its closed form `Advance`.
- `ByteStream` (byte_stream.dfy): what a stream still has to hand out, as a
  value `Cursor(rest, trailing)`. `rest` holds the bytes before the end of the
  stream and `trailing` is the byte shown once at the end. This module also has
  the UTF-8 byte-order-mark skip (section 6 of RFC 3629) and the JSON grammar as
  an abstract parameter `Parser`.
- `JsonWrapper` (wrapped_stream.dfy): the `WrappedMemoryStream` class, with the
  fields the source updates in place (`parseStart`, `count`, `nextChar`). Its
  `Take`, `Peek`, `Tell` and `Peek4` are proved against the abstract `Cursor`.
  It also has the BOM-skipping reader, `json_parse_wrap` and `json_parse`.
- `Channels` (channels.dfy): what a data handler sees of a channel: memory,
  start index, `left` and `avail`. `Data()` gives the available bytes in
  logical order.
- `RecordDriver` (record_driver.dfy): the record loop of
  `json_tcp_data_parser`. The method `ScanJsonRecords` follows the source
  pointer by pointer and is proved equal to the function `JsonRecords` of the
  logical bytes. Lemmas about `JsonRecords` and `Scan` state the bound and the
  failure semantics.
- `NewlineScan` (newline_scan.dfy): the two newline handlers. Both methods are
  proved to compute `NewlineEnd` and `NewlineCount` of the logical bytes, so
  they agree on every buffer. This includes a newline right at the wrap seam.
- `FltJson` (flt_json.dfy): the handlers with their statistics and wake-up
  request, the pass-through handlers, and `parse_json_flt`, which selects the
  handler.

A WrappedMemoryStream shows the byte at `parse_end` once more at the end of
data. Because the driver sets `parse_end` to the last available byte, that
byte is the `trailing` of the stream the grammar sees. A parse that stops on it
makes the driver add the final `+1`.

## Model

| member | source | states |
|---|---|---|
| `Ring.Distance` | src/flt_json.c:432-438 | the driver's `change`: walking that many bytes from the start reaches the end position directly, or after one wrap at `buffer_end` when the end lies before the start |
| `Ring.Next` | json/jsonwrapper.cpp:56-64 | one step of the `Take` cursor is an increment, except that it goes back to the origin exactly when the increment reaches `buffer_end` and is not `parse_end`; inside the ring it stays inside or lands on `parse_end` |
| `Ring.Advance` | json/jsonwrapper.cpp:56-64 | the cursor after `k` steps is `start + k`, or `start + k` less one allocation after a wrap; it stays within the allocation while at most the whole stream is taken |
| `Ring.StreamSize` | json/jsonwrapper.cpp:24-30 | the stream size is the ring distance from start to end when they differ; when they are equal (the "wrapped" branch) it is the whole allocation |
| `Ring.Span` | json/jsonwrapper.cpp:24-30 | the bytes between two ring positions, contiguous or wrapped, number exactly the ring distance between them |
| `Ring.AdvanceRange` | json/jsonwrapper.cpp:56-64 | a cursor that has taken at most the whole stream stays inside the allocation; it is at `parse_end` exactly after the whole stream and strictly inside the ring before |
| `Ring.AdvanceStep` | json/jsonwrapper.cpp:56-64 | one more step of the closed-form cursor is one application of the `Take` step (increment, back to the origin only at `buffer_end` when not at `parse_end`) |
| `Ring.DistanceAdvance` | src/flt_json.c:432-438 | the driver's wrap-aware `change` between the start and the cursor after `k` steps is exactly `k` |
| `Ring.SpanStep` | json/jsonwrapper.cpp:51-66 | one `Take` step drops exactly the first unread byte, which is the byte under the cursor |
| `ByteStream.Cursor.Take` | json/jsonwrapper.cpp:40-67 | before the end, a read returns the first unread byte and leaves the rest; at the end it leaves only zero bytes |
| `ByteStream.Cursor.SkipBom` | json/jsonwrapper.cpp:126-130 | the BOM reader's constructor drops at most three bytes |
| `ByteStream.Cursor.TakeN` | json/jsonwrapper.cpp:40-67 | `n` reads drop the first `n` bytes; reading past the end leaves only zero bytes |
| `ByteStream.SkipBomSuffix` | json/jsonwrapper.cpp:126-130 | the BOM reader drops bytes only from the front |
| `ByteStream.SkipBomStripsMark` | json/jsonwrapper.cpp:126-130 | a stream that begins with EF BB BF loses exactly those three bytes |
| `ByteStream.SkipBomKeepsData` | json/jsonwrapper.cpp:126-130 | a stream whose first byte is none of the mark bytes is unchanged |
| `ByteStream.SkipBomDropsStrayTail` | json/jsonwrapper.cpp:127-129 | the three tests are independent: a leading BB BF without EF is dropped too |
| `ByteStream.ParseConsumed` | json/jsonwrapper.cpp:158-168 | one parse through the BOM reader consumes nothing when the grammar rejects; otherwise it consumes a prefix of the data, at least one byte when there is data |
| `JsonWrapper.WrappedMemoryStream.constructor` | json/jsonwrapper.cpp:14-31 | size is `parse_end - parse_start` when the end is after the start, and `(buffer_end - parse_start) + (parse_end - origin)` otherwise; the stream hands out the ring span then the byte at `parse_end` |
| `JsonWrapper.WrappedMemoryStream.Remaining` | json/jsonwrapper.cpp:104-116 | the unread bytes are the stream's bytes after the first `count`; they are empty exactly at `parse_end` |
| `JsonWrapper.WrappedMemoryStream.Peek` | json/jsonwrapper.cpp:33-39 | changes no state and returns the byte the next `Take` returns; before the end, this is the byte under the cursor |
| `JsonWrapper.WrappedMemoryStream.Take` | json/jsonwrapper.cpp:40-68 | returns the previous `Peek`; before the end, `count` goes up by 1 and the cursor takes one ring step; at the end, neither moves and the shown byte becomes zero, so the byte at `parse_end` is returned once |
| `JsonWrapper.WrappedMemoryStream.Tell` | json/jsonwrapper.cpp:69-70 | `count` is at most `size`; counted plus unread bytes give the whole stream; `count == size` exactly when the cursor is at `parse_end` |
| `JsonWrapper.WrappedMemoryStream.Peek4` | json/jsonwrapper.cpp:96-102 | the cursor is returned exactly when `count + 4 <= size`, that is when four bytes remain, without regard to the wrap |
| `JsonWrapper.OpenUtf8Stream` | json/jsonwrapper.cpp:126-130 | the reader's constructor applies the BOM skip to the stream and takes at most three bytes |
| `JsonWrapper.ReadBytes` | json/jsonwrapper.cpp:168 | the grammar's `n` reads move the stream like `n` abstract reads |
| `JsonWrapper.JsonParseWrap` | json/jsonwrapper.cpp:154-209 | returns PASS exactly when the grammar accepts; on failure, or when not requested, `parsed_til` is untouched; on success it receives the final cursor, which is `k` ring steps from the start, where `k` is the number of bytes consumed |
| `JsonWrapper.ConsumedAfterTakes` | json/jsonwrapper.cpp:168-208 | after the grammar's reads, the bytes consumed (mark included) are what the parse reports |
| `JsonWrapper.RejectConsumesNothing` | json/jsonwrapper.cpp:170-203 | a rejected parse reports no consumption |
| `JsonWrapper.JsonParse` | json/jsonwrapper.cpp:211-238 | on failure nothing is written; on success the start moves past the value, stays within the window, and `eof` is 0 exactly when the next byte is a newline, otherwise 1 |
| `Channels.Channel.Data` | src/flt_json.c:410-416 | the available bytes in logical order number `avail` |
| `Channels.DataAt` | src/flt_json.c:502-516 | logical offset `j` sits at `start + j` in the contiguous run and at `j - left` past the wrap |
| `Channels.PhysInjective` | src/flt_json.c:410-422 | distinct logical offsets sit at distinct indices |
| `Channels.ChannelSpan` | src/flt_json.c:410-422 | `parse_end` is the index of the last available byte, inside the buffer; the stream from any offset holds the logical bytes up to the next-to-last byte |
| `Channels.ChannelAdvance` | src/flt_json.c:410-442 | `k` cursor steps from offset `o` land at the index of offset `o + k` |
| `RecordDriver.ParseAfterDrops` | src/flt_json.c:429 | parsing after `o` reads is parsing the stream without its first `o` bytes |
| `RecordDriver.ParseAfter` | src/flt_json.c:429-442 | the parse that starts after `o` bytes consumes only bytes that remain, at least one when any remain |
| `RecordDriver.Stream` | src/flt_json.c:413-422 | with `parse_end` at the last available byte, the stream holds all available bytes but the last |
| `RecordDriver.ParseAt` | src/flt_json.c:427-429 | a parse from offset `o` ends at or before the last byte, and moves at least one byte when it starts before it |
| `RecordDriver.Scan` | src/flt_json.c:427-450 | the loop stops at or before the last byte; at most one failure; no failure exactly when it reached the last byte; without a parse, it consumed nothing |
| `RecordDriver.JsonRecords` | src/flt_json.c:391-476 | `0 <= ret <= avail`; at most one failure; everything is forwarded exactly when no parse failed and at least one succeeded; nothing is forwarded when no record parsed |
| `RecordDriver.ScanStopsAtRejection` | src/flt_json.c:444-449 | a failing call leaves `ret` at the start of the rejected record, before the last byte |
| `RecordDriver.ScanCoversAccepted` | src/flt_json.c:430-443 | each counted record was accepted and lies within what is forwarded |
| `RecordDriver.AllParsed` | src/flt_json.c:451-456 | the `+1` makes `ret == avail` exactly when all parses succeeded up to the last byte |
| `RecordDriver.ScanAccept` | src/flt_json.c:430-443 | an accepted record adds its length and one parsed record, and the loop resumes after it |
| `RecordDriver.WrapCursorAt` | src/flt_json.c:429 | the stream `json_parse_wrap` builds at logical offset `o` parses like `ParseAt` of the logical bytes |
| `RecordDriver.RecordStep` | src/flt_json.c:432-442 | after a parse of `k` bytes, `parsed_til` is the index of offset `o + k`, the wrap-aware `change` is `k`, and `parsed_til == parse_end` exactly at the last byte |
| `RecordDriver.ChainExtend` | src/flt_json.c:442-443 | an accepted parse extends the chain of record starts |
| `RecordDriver.ChainScan` | src/flt_json.c:427-450 | along the chain, the tally from the first byte is the tally from the last start plus the records passed |
| `RecordDriver.ChainEnd` | src/flt_json.c:444-456 | at a rejection the tally is (start of that record, records before, 1); at the last byte it is (`avail`, n, 0) when some record parsed |
| `RecordDriver.ParseRecord` | src/flt_json.c:429-443 | one `json_parse_wrap` call: on failure `parsed_til` is kept; on success it is the index of the next start, with the wrap-aware change equal to the record length |
| `RecordDriver.ScanJsonRecords` | src/flt_json.c:403-456 | the driver's pointer loop with the wrapped `parse_end`, the per-record `change` and the final `+1` computes exactly `JsonRecords` of the available bytes |
| `NewlineScan.NewlineEnd` | src/flt_json.c:501-521 | how many leading bytes end on a newline: never more than the bytes scanned |
| `NewlineScan.NewlineCount` | src/flt_json.c:499-521 | the number of newlines among the bytes scanned, never more than the bytes scanned |
| `NewlineScan.NewlineEndIsLast` | src/flt_json.c:501-521 | `NewlineEnd` is one past the last newline: the byte before it is a newline and no later byte is |
| `NewlineScan.NoNewlineExtends` | src/flt_json.c:503-509 | bytes without a newline change neither the end nor the count |
| `NewlineScan.NewlinesBeforeEnd` | src/flt_json.c:501-521 | every newline lies in the forwarded part, which is empty exactly when there is no newline |
| `NewlineScan.MemChr` | src/flt_json.c:560 | `memchr` returns an index inside its window that holds the byte |
| `NewlineScan.MemChrFirst` | src/flt_json.c:560 | `memchr` returns the first occurrence; it returns none only when the byte is absent |
| `NewlineScan.ContiguousRun` | src/flt_json.c:558-577 | contiguous bytes passed over by `memchr` add nothing |
| `NewlineScan.WrappedRun` | src/flt_json.c:589-612 | wrapped bytes passed over by `memchr` add nothing |
| `NewlineScan.FindContiguous` | src/flt_json.c:560-573 | one contiguous `memchr` finds the next record end, or none is left in the run |
| `NewlineScan.FindWrapped` | src/flt_json.c:591-608 | one wrapped `memchr` finds the next record end at offset `left + i + 1`, or none is left |
| `NewlineScan.ScanNewlines` | src/flt_json.c:498-521 | the byte loop returns one past the last newline (offset `left + i` for wrapped bytes), or 0 if there is none, and counts the newlines |
| `NewlineScan.ScanNewlinesSimd` | src/flt_json.c:548-620 | the `memchr` loops return the same `ret` and `parsed_records` as the byte loop on every buffer |
| `NewlineScan.SimdContiguous` | src/flt_json.c:552-579 | the first loop ends at the last newline of the run, and `wrap_remainder` is the run's bytes after it |
| `NewlineScan.SimdWrapped` | src/flt_json.c:582-620 | `wrap_remainder` is added once, to the first wrapped newline, and the second loop ends at the last newline overall |
| `FltJson.JsonConfig.constructor` | src/flt_json.c:707-714 | a zeroed configuration: no name, version `JSON_PARSER`, statistics 0 |
| `FltJson.FilterOps.constructor` | src/flt_json.c:671-697 | `json_ops.tcp_data` starts as the parser handler |
| `FltJson.HandlerBounds` | src/flt_json.c:391-666 | no handler forwards more than is available; at most one failure per call; forwarding everything means no failure |
| `FltJson.NewlineHandlerTally` | src/flt_json.c:478-633 | the newline handlers forward up to and including the last newline, count no failure, and forward nothing exactly when they count no record |
| `FltJson.JsonTcpDataParser` | src/flt_json.c:391-476 | with `avail == 0` returns 0 without scanning; otherwise returns `JsonRecords`, adds its counts to the statistics, and asks for a wake-up exactly when `ret != avail` |
| `FltJson.JsonTcpDataNewline` | src/flt_json.c:478-527 | returns 0 on no data; otherwise one past the last newline; adds the newline count to `stats_records_parsed`; never touches `stats_records_failed`; wake-up exactly when `ret != avail` |
| `FltJson.JsonTcpDataNewlineSimd` | src/flt_json.c:528-633 | the same result, statistics and wake-up as the byte handler |
| `FltJson.JsonTcpDataNoop` | src/flt_json.c:634-643 | always returns `avail`, never a wake-up |
| `FltJson.JsonTcpForwardData` | src/flt_json.c:645-666 | always forwards `len`, never a wake-up |
| `FltJson.TcpData` | src/flt_json.c:695 | a call through `json_ops.tcp_data` does what the selected handler does |
| `FltJson.ScanOptions` | src/flt_json.c:719-743 | the option loop stops at a word it does not act on, or at a `name` with no value |
| `FltJson.LastSettingWins` | src/flt_json.c:719-743 | the last version word and the last name win; the zeroed defaults survive only when no word sets them |
| `FltJson.HandlerFor` | src/flt_json.c:746-755 | each version selects its own handler, and only `JSON_PARSER` selects the parser handler |
| `FltJson.ParseJsonFlt` | src/flt_json.c:700-768 | when the word is not `json`, returns 0 with `*cur_arg` and `json_ops.tcp_data` unchanged and a fresh zeroed configuration (version `JSON_PARSER`, no name, zero statistics); returns -1 with `*cur_arg` unchanged on `name` without a value; otherwise leaves `*cur_arg` at the first unknown word and sets the version, name and `json_ops.tcp_data` from it |

## Left out

- The JSON grammar (rapidjson's `ParseStream`) is a parameter `Parser`. It
  sees what the stream will hand out after the BOM skip and answers either
  "accepted after `n >= 1` reads" or "rejected". It is not derived from
  RFC 8259.
- Channel geometry: the model takes `left` as the number of contiguous bytes
  starting at the handler's start index (`ci_head + FLT_NXT`), and it requires
  that the wrapped part ends before that index. The host's `ci_contig_data`,
  `ci_data`, `ci_head` and `c_orig` are not part of this model.
- `task_wakeup` becomes the `wakeup` flag of the returned `Verdict`.
  Registration, the stream and filter lifecycle hooks, tracing and the
  `DEBUG`/`TESTING` code are not modelled.
- The uninitialised `parsed_til` in `json_tcp_data_parser` starts as `None`.
  So a call in which no parse succeeds never adds the final `+1` (for example,
  `avail == 1`, where the loop does not run at all).
- `FltJson.JsonConfig`: statistics are unbounded integers. The source's
  `int` counters could wrap, and that is not modelled. Concurrent updates of
  the shared `conf` and of the global `json_ops` are not modelled either. The
  object is sequential here.
- `FltJson.ParseJsonFlt`: the `calloc`/`strdup` out-of-memory paths,
  the error message, and freeing `conf` on error are not modelled. On error the
  model still returns the configuration object.
- `FltJson.JsonTcpForwardData`: the source stores the `unsigned int len` in an
  `int`, so a `len` above `INT_MAX` would come back negative. The model's `nat`
  does not capture this; buffer lengths stay far below that bound.
- The write-side stubs `Put`, `Flush`, `PutBegin` and `PutEnd` are left out,
  as is the unreachable pointer arithmetic after the `return` in `Tell`.

Behaviour of the code a reader may not expect:

- The BOM tests are independent of each other (`SkipBomDropsStrayTail`). They
  are not each conditioned on the previous match.
- `Peek4` does not fail when the four bytes cross the wrap. It checks only the
  byte count.
- A stream constructed with `parse_start == parse_end` reports a size of the
  whole allocation. The driver never builds one, because its loop stops at
  `parse_end`.
- For `{"a":1}\n{"b":` the driver forwards 7 bytes: a record's length stops
  at its closing brace, and the newline before the next value is counted only
  when that value parses.
