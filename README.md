# stklog logrus hook — a Dafny model

This project models the core of the stklog hook for logrus, a Go package.
The hook correlates logs with logical "stacks" (request contexts), buffers
them and ships them to the stklog.io collector. The model covers:

- **Stacks and the correlation table** (`stack.dfy`, `mapping.dfy`).
  - A `Stack` is created open, mutated by its setters, ended (pushed to the
    writer) and optionally forked by `Attach`.
  - The process-wide `mapping` table binds the current goroutine id to a
    request id.
  - The goroutine id is parsed out of the runtime's stack dump.
- **The writer** (`writer.dfy`, `batching.dfy`).
  - The buffer of pending stacks and logs.
  - One step of the dispatch loop over events (a message, a tick, the flush
    signal), and a finite run of the loop.
  - `cloneResetBuffers`.
  - The batch slicing of `send`: one POST per batch of at most `size`
    records, stacks before logs.
- **Transports** (`transport.dfy`, `transport_http.dfy`, `transport_tcp.dfy`).
  - Option lookup and the project key.
  - The HTTP transport's batch-size clamp, `Init`, `Send`, `Flush` round count
    and progress, and response classification.
  - The TCP transport's tab-joined, newline-terminated frames, per-record
    tagging, skipping of records that fail to marshal, and the write that
    closes, re-dials and retries at most once.
- **The hook** (`stklog_hook.dfy`).
  - `Fire`, which normalises a logrus entry into a log message: trimmed
    message, level + 1 in int32 arithmetic, the bound request id, and the
    first caller outside logrus.
  - The caller lookup that skips frames by file suffix.
  - `Levels` and `SetLevel`.
  - `start`, which picks a transport once per process.

Globals become objects passed as parameters:

- `mapping` is a `Mapping.GidTable`.
- `buffer` is a `Writer.MsgBuffer`.
- `chanBuffer` is a `Records.Channel` that records what was sent.
- `running` is a field of `Writer.WriterProcess` or `Hook.HookProcess`.

Runtime facts that a call observes are also parameters: the goroutine dump,
the call stack, a fresh uuid, the hostname lookup and the formatted time.

Socket writes and dials are scripts that the TCP transport consumes in order.
Its behaviour is stated against specification functions on a `TcpState`
value: `InitSpec`, `TryWrite`, `WriteSpec` and `WriteAll`.

Several rows of the table below are stated against other specification
functions, which carry no contract of their own and so have no row:

- `TransportTcp.Frame` (transport_tcp.go:51-52): the tab-joined,
  newline-terminated frame of one write.
- `TransportTcp.TaggedFrames` (transport_tcp.go:65-82): the frames one tagged
  write sends, one per record that marshals.
- `Batching.Chunks` and `Batching.BatchPosts` (writer.go:101-119, transport_http.go:54-74): the
  batches of at most `size` records and the POSTs that carry them.
- `Hook.Keep` (stklog_hook.go:129-135): the levels whose int32 value is not
  above a given level, in order.
- `Hook.TrimSpace` (stklog_hook.go:56): the message with leading and trailing
  white space removed.
- `Hook.FirstUnignored` (stklog_hook.go:84-112): the first caller frame
  outside the ignored logrus files.

Go strings and byte slices are both `seq<char>`. Unbounded integers stand for
Go's `int`. The `int32` conversions of log levels are written out as
two's-complement wrap-around (`Hook.WrapInt32`).

Behaviour of the code that the model keeps as written:

- No HTTP response is retried. A 5xx status is a send failure like any other
  non-200 status.
- Only status 200 counts as delivered, not every 2xx status.
- `End` has no idempotence guard. Ending a stack twice enqueues it twice
  (`Stacks.EndTwice`).
- The level written by `Fire` is the logrus level + 1.
- The `"tcp"` transport option selects no transport, so `start` leaves the
  hook not running.

## Model

| member | source | states |
|---|---|---|
| Records.Min | writer.go:138-143 | the result is at most both arguments and is one of them |
| Records.Max | transport_http.go:45 | the result is at least both arguments and is one of them |
| Records.Channel.constructor | writer.go:21 | `make(chan iMessage)`: a new channel has had nothing sent on it |
| Records.Channel.Send | stack.go:53 | a channel send appends exactly the message, after everything sent before |
| Mapping.TrimPrefix | mapping.go:19 | when the input starts with the prefix, prefix + result is the input; otherwise the input is unchanged |
| Mapping.IndexByte | mapping.go:20 | -1 exactly when the byte is absent; otherwise an index holding the byte, with no earlier occurrence |
| Mapping.Captured | mapping.go:17-18 | the runtime fills exactly min(length of the dump, 64) bytes, which are a prefix of the dump; a dump of at most 64 bytes is kept whole |
| Mapping.GetGID | mapping.go:16-22 | the id holds no space and, followed by a space, is a prefix of the trimmed dump; the requires states the panic-free condition (a space after the trim, within 64 bytes) |
| Mapping.GetGIDOfRunningGoroutine | mapping.go:16-21 | on "goroutine 42 [running]:" the id is "42" |
| Mapping.GetGIDDeterminedByHead | mapping.go:19-20 | any space-free text followed by a space at the head of the trimmed dump is the id, so two dumps with the same head give the same id |
| Mapping.GidTable.constructor | mapping.go:10 | the correlation table starts empty: no goroutine is bound to a request id |
| Mapping.GidTable.GetCurrentRequestID | mapping.go:25-30 | returns (mapping[gid], true) when the goroutine is bound and ("", false) otherwise; the table is not modified |
| Stacks.ErrorText | stack.go:13-14 | STACK_NOT_FOUND has its fixed text; STACK_NOT_ENDED starts with its fixed text, the file and '#', and the rest is a `%d` number that reads back as the line number (0 when the caller lookup failed) |
| Stacks.FormatIntRoundTrip | stack.go:66 | the line number that `%d` prints parses back to the same integer, negative values included |
| Stacks.ParseIntOnlyFormatted | stack.go:66 | the only text that parses to a line number is the one `%d` prints for it, so the error text after '#' is fixed by the line number (no empty tail, no sign before 0, no leading zero) |
| Stacks.ResolvedHostname | stack.go:79-82 | a failed hostname lookup gives "localhost"; a successful one gives the resolved host |
| Stacks.Stack.constructor | stack.go:84-92 | the new stack is unpushed, with no parent, no name, empty extra fields, the given request id, time, caller location and hostname |
| Stacks.Stack.SetRequestID | stack.go:32-36 | only the request id changes; the current goroutine is bound to it and no other table entry changes; returns the receiver |
| Stacks.Stack.SetFields | stack.go:39-42 | only the extra fields change, replaced wholesale; returns the receiver |
| Stacks.Stack.SetName | stack.go:45-48 | only the name changes; returns the receiver |
| Stacks.Stack.End | stack.go:51-54 | pushed becomes true, nothing else changes, and exactly one copy of the stack is enqueued |
| Stacks.Stack.Attach | stack.go:60-71 | on an unpushed stack: no child, STACK_NOT_ENDED with the caller's file and line, and the goroutine is unbound; on a pushed stack: a fresh unpushed child whose parent id is this stack's id, with the goroutine bound to the child's id; the receiver is unchanged |
| Stacks.CreateStack | stack.go:75-93 | a fresh unpushed stack with the new id, empty extra fields, the caller's location and the resolved hostname; the goroutine is bound to the new id, and no other entry changes |
| Stacks.EndTwice | stack.go:51-54 | ending a stack twice enqueues it twice |
| Batching.SliceBatches | writer.go:108-110 | the slicing loop `i += min(size, length-i)` yields exactly the batches `Chunks` |
| Batching.ChunksLossless | writer.go:105-118 | the batches concatenate back to the drained sequence, in order |
| Batching.ChunksBounded | writer.go:108-109 | every batch is non-empty and holds at most `size` records |
| Batching.ChunksCount | writer.go:108-109 | there are exactly ceil(length / size) batches |
| Batching.BatchPostsLossless | writer.go:101-119 | the stacks, and the logs, carried by one drain's requests are exactly the drained ones, in order |
| Batching.BatchPostsShape | writer.go:105-118 | ceil(n/size) stack requests come first, then ceil(m/size) log requests, each to its endpoint under the project key, each body of 1 to size records; an empty sequence gives no request |
| Batching.BatchPostsEmpty | writer.go:105-118 | an empty buffer gives no request |
| Writer.MsgBuffer.constructor | writer.go:24 | the zero `msgBuffer`: no pending stacks and no pending logs |
| Writer.MsgBuffer.CloneResetBuffers | writer.go:88-98 | returns the buffers as they were, element by element, and leaves both empty |
| Writer.Send | writer.go:101-119 | drains the buffer, leaving it empty, and posts the stack batches, then the log batches, of size 100 |
| Writer.Step | writer.go:63-83 | a log or a stack is appended to its own buffer and the other is untouched; any other message changes nothing; a tick or the flush signal drains and sends; only the flush signal exits |
| Writer.RunLoop | writer.go:59-86 | events are handled in order up to and including the first flush signal; every received stack and log is sent, in arrival order, or still buffered; after the flush nothing is buffered |
| Writer.WriterProcess.constructor | writer.go:23 | `running` starts false and no loop has been launched |
| Writer.WriterProcess.Start | writer.go:48-55 | a second start is a no-op; the first launches one loop with the project key and sets running |
| Transport.GetOption | transport.go:34-37 | returns (options[k], true) when k is present and (nil, false) otherwise |
| Transport.GetProjectKey | transport.go:23-33 | the "project_key" option when it is a string, and "" when it is absent or not a string |
| Transport.ProjectKeyIgnoresOtherOptions | transport.go:23-33 | the project key depends on the "project_key" entry only |
| TransportHttp.GetBatchSize | transport_http.go:29-42 | the configured int when it is in (0, 500], else 200; always within [1, 500] |
| TransportHttp.ExecRequest | transport_http.go:77-90 | no response is an unexpected error, 401 an invalid key, 200 delivered, any other status a send failure carrying that status; no outcome leads to a retry |
| TransportHttp.FlushRounds | transport_http.go:45 | max(stacks, logs)/size + 1 rounds: the least count whose rounds of size records exceed the larger buffer (count·size > max ≥ (count−1)·size), so at least one round |
| TransportHttp.FlushRoundsAgainstBatches | transport_http.go:45 | the round count is the number of batches of the larger buffer, ceil(max/size), plus one extra round that posts nothing when that buffer is a multiple of size (zero included) |
| TransportHttp.ProgressBelowHundred | transport_http.go:49 | the progress 100*i/count printed after round i is in [0, 100) |
| TransportHttp.Progress | transport_http.go:49 | the printed percentage is in [0, 100) |
| TransportHttp.ThreeLogsInBatchesOfTwo | transport_http.go:66-73 | three logs with batch size 2 give two log posts, of two records and then one, and no stack post |
| TransportHttp.TransportHTTP.constructor | stklog_hook.go:40-44 | the literal `&transportHTTP{transport: transport{options: options}}`: the given options, an empty project key and a zero batch size until `Init` |
| TransportHttp.TransportHTTP.Init | transport_http.go:24-27 | stores GetBatchSize and GetProjectKey of the options |
| TransportHttp.TransportHTTP.Send | transport_http.go:54-74 | drains the buffer, leaving it empty, and posts the stack batches, then the log batches, of the configured size under the project key |
| TransportHttp.TransportHTTP.Flush | transport_http.go:44-51 | calls Send FlushRounds times, returning each round's requests and Progress(i, count) after round i; the first round posts BatchPosts of all drained records, every later round posts nothing, and the buffer ends empty |
| TransportTcp.FrameRoundTrip | transport_tcp.go:51-52 | a frame is the parts joined by tabs plus one newline: a reader that drops the newline and splits at tabs gets the parts back when no part holds a tab |
| TransportTcp.FrameLineDelimited | transport_tcp.go:51-52 | the trailing newline is the frame's first newline exactly when no part holds a newline |
| TransportTcp.InitSpec | transport_tcp.go:23-30 | Init touches neither the options nor the write script nor the closed connections, and never loses an existing connection |
| TransportTcp.InitConsistent | transport_tcp.go:23-30 | Init re-reads the project key from the options; a successful dial installs a new, open connection; a failed dial leaves the connection as it was and only records the failure; connection ids stay consistent |
| TransportTcp.TryWrite | transport_tcp.go:53-56 | a connection is still present afterwards and the options are unchanged; the single attempt with its close and re-init on failure is proved in `OneAttempt` and `WriteBoundedRetry` |
| TransportTcp.WriteFrame | transport_tcp.go:57-59 | a connection is still present afterwards and the options are unchanged; that a second attempt follows only a failure with retry is proved in `WriteBoundedRetry` |
| TransportTcp.WriteSpec | transport_tcp.go:50-61 | a connection is still present and the options are unchanged; the framing of the parts and the bound of one retry are proved in `WriteBoundedRetry` |
| TransportTcp.WriteBoundedRetry | transport_tcp.go:50-61 | the events of write(msg, retry) are a good attempt; or, without retry, a failed attempt; or, with retry, a failed attempt followed by a good one or by a second failed one. So there are at most two attempts of the same frame, and every failed attempt is followed by a close of that connection and a re-dial |
| TransportTcp.RetryOnNewConnection | transport_tcp.go:53-59 | when the first write fails and the re-dial and second write succeed, the frame goes once over the failed connection, which is closed, and once over the new one |
| TransportTcp.TaggedFramesAppend | transport_tcp.go:65-73 | the frames of two runs of records are the frames of each, in order |
| TransportTcp.FailedMarshalSkipped | transport_tcp.go:66-70 | a record that fails to marshal contributes no frame, and the records around it are still framed |
| TransportTcp.TaggedFramesAllMarshal | transport_tcp.go:65-73 | when every record marshals there is one frame [key, tag, payload] per record, in order |
| TransportTcp.WriteAll | transport_tcp.go:63-83 | writing the frames one after another keeps the options and a present connection; no frames means no change |
| TransportTcp.WriteConsistent | transport_tcp.go:53-56 | a write, with its closes and re-dials, keeps connection ids consistent |
| TransportTcp.WriteAllConsistent | transport_tcp.go:63-83 | writing any frames keeps connection ids consistent |
| TransportTcp.WriteAllHappyPath | transport_tcp.go:63-83 | when every scripted write is a full write, each frame is written exactly once, in order, on the same connection, with no close or re-dial |
| TransportTcp.TransportTCP.constructor | transport_tcp.go:18-21 | a transport with no connection and the given options and scripts |
| TransportTcp.TransportTCP.Init | transport_tcp.go:23-41 | the state moves by InitSpec |
| TransportTcp.TransportTCP.SocketWrite | transport_tcp.go:53 | reports the scripted result (a closed connection fails) and records the write |
| TransportTcp.TransportTCP.CloseConn | transport_tcp.go:55 | closes the current connection and records it |
| TransportTcp.TransportTCP.Write | transport_tcp.go:50-61 | the state moves by WriteSpec |
| TransportTcp.TransportTCP.WriteTagged | transport_tcp.go:65-73 | the state moves by WriteAll of the tagged frames of the records that marshal |
| TransportTcp.TransportTCP.Send | transport_tcp.go:63-83 | drains the buffer, leaving it empty, and writes the stack frames and then the log frames, each with retry |
| TransportTcp.TransportTCP.Flush | transport_tcp.go:43-49 | does nothing when both buffers are empty; otherwise sends once |
| Hook.WrapInt32 | stklog_hook.go:131 | int32 conversion: the result is in int32 range, congruent mod 2^32, unchanged in range, and the upper half of uint32 maps to negatives |
| Hook.LogLevel | stklog_hook.go:65 | the level written is level + 1 below 2^31 - 1; the int32 maximum wraps to the minimum; uint32 values of 2^31 and above read as negative, then + 1 |
| Hook.KeepCountingPrefix | stklog_hook.go:130-134 | filtering levels 0..n-1 keeps exactly the first KeptCount(level) of them |
| Hook.SetLevelSelectsUpTo | stklog_hook.go:129-135 | SetLevel(level) keeps AllLevels up to and including level, in order; a level that is negative as int32 keeps none |
| Hook.SetLevelSelectsExactly | stklog_hook.go:131 | a level is kept if and only if it is one of AllLevels and not above the threshold as int32 |
| Hook.TrimSpaceSlice | stklog_hook.go:56 | the trimmed message is a slice of the input; everything cut from the ends is white space, and the result neither starts nor ends with white space |
| Hook.TrimSpaceIdempotent | stklog_hook.go:56 | trimming twice is trimming once |
| Hook.FirstUnignoredFinds | stklog_hook.go:84-106 | the frame found is the first one from the start depth whose file does not end with an ignored suffix |
| Hook.FirstUnignoredExhausted | stklog_hook.go:91-95 | when every remaining frame is ignored, the result is ("???", 0) |
| Hook.GetCaller | stklog_hook.go:84-106 | the loop returns the first frame from callDepth + 1 whose file has no ignored suffix, or ("???", 0) |
| Hook.GetCallerIgnoringLogMulti | stklog_hook.go:109-112 | getCaller from callDepth + 1, with the five fixed logrus and asm suffixes |
| Hook.StklogHook.constructor | stklog_hook.go:24 | a hook with no configured level |
| Hook.StklogHook.Levels | stklog_hook.go:115-120 | AllLevels when no level was set, the configured levels otherwise; never empty |
| Hook.StklogHook.SetLevel | stklog_hook.go:129-135 | appends the levels kept for the threshold after those already set, so repeated calls accumulate |
| Hook.StklogHook.Fire | stklog_hook.go:55-75 | with no binding: STACK_NOT_FOUND and nothing enqueued; otherwise exactly one log is enqueued, holding level + 1, the entry's data, the trimmed message, the bound request id, the entry's time and the first caller outside logrus |
| Hook.SelectTransport | stklog_hook.go:33-45 | HTTP if and only if the option is missing, not a string, or "http"; "tcp" and any other string select none |
| Hook.HookProcess.constructor | writer.go:23 | `running` starts false and no transport has been launched |
| Hook.HookProcess.Start | stklog_hook.go:28-51 | a no-op when running; with no transport selected running stays false; otherwise one new HTTP transport, initialised from the options, is launched and running is set |
| Hook.NewStklogHook | stklog_hook.go:22-25 | starts the process and returns a fresh hook with no level; the process runs afterwards exactly when it was running or HTTP was selected; no transport is launched when it was already running or none is selected, otherwise exactly one fresh HTTP transport, initialised from the options, is appended |
| Hook.TwoHooksLaunchOnce | stklog_hook.go:22-32 | two hooks created in a fresh process launch one transport when HTTP is selected and none otherwise: the second start finds the process running |

## Left out

- HTTP I/O through gorequest is left out: headers, the JSON body encoding, keep-alive settings. A request is the record `Post(url, projectKey, body)`, and the status is an input of `ExecRequest`. Its diagnostic printing is left out too.
- The TLS dial, the socket and the background reader goroutine of the TCP transport (transport_tcp.go:31-40) are left out. Dial and write outcomes are scripts, and a connection is an abstract id.
- msgpack and JSON serialisation are left out. Marshalling is a partial function the caller supplies.
- All `fmt` printing is left out.
- Concurrency is left out, and the model is sequential:
  - the channels;
  - the mutexes;
  - the race between `go send` on a tick and later appends, since a tick's send is taken as finishing before the next event;
  - the `Flush` rendezvous of stklog_hook.go:123-126, which is not modelled (it only signals the loop and waits for its acknowledgement);
  - the unsynchronised writes to `mapping`.
- `loop`, which `start` launches (stklog_hook.go:48), is not part of this model. `Hook.HookProcess.Start` records the launched transport instead.
- writer.go's `execRequest` (writer.go:122-136) classifies responses exactly as transport_http.go's does. Only the diagnostic text differs. It is modelled once, as `TransportHttp.ExecRequest`.
- writer.go's `start` takes a project key and stklog_hook.go's takes options. They are modelled separately, as `Writer.WriterProcess.Start` and `Hook.HookProcess.Start`.
- The runtime is left out: `runtime.Stack`, `runtime.Caller`, `uuid.NewV4`, `os.Hostname` and `time.Now().Format` become parameters (a dump, a frame sequence, a fresh id, an optional hostname, a timestamp string).
- Mapping.GetGID: a dump without a space after the trim, within 64 bytes, makes the source panic. The model excludes it with `requires HasGID(dump)`, as does every caller that reads the goroutine id.
- Hook.GetCaller: `callDepth` is a `nat`. Negative depths, which the source would pass to `runtime.Caller`, are not modelled.
- TransportHttp.TransportHTTP.Send: requires `batchSize >= 1`. Before `Init` the size is 0 and the source's slicing loop never advances.
- TransportHttp.TransportHTTP.Flush: requires `batchSize >= 1`. Before `Init` the source divides by zero.
- TransportTcp.TransportTCP.Send: requires a connection whenever there is a frame to write. After a first failed dial, `TCPConn` is nil and the source's write panics.
- TransportTcp.TransportTCP.Flush: the same requires as `Send`, for the same reason.
- Extra fields (`Fields`) are immutable map values. In Go they are a shared map: `SetFields` stores the caller's map (stack.go:40), the writer's copy of an ended stack is shallow (writer.go:72) and `Fire` stores `entry.Data` (stklog_hook.go:66). Changes made through one of these aliases after the call are not modelled.
- `Value` distinguishes Go's `int` (`VInt`) from every other dynamic type (`VOther`). A batch size given as `int64`, `uint` or `float64` is `VOther`, and the size falls back to its default, as the source's `case int:` (transport_http.go:32) does.
- logrus levels are the six of the logrus version the source imports (Panic to Debug, numbered 0 to 5). `Level` is any uint32.
- `TrimSpace` works on characters with the white-space set of `unicode.IsSpace`. UTF-8 decoding of multi-byte spaces is not modelled.
- Each hook's `Flush` (stklog_hook.go:123-126) is the channel rendezvous above. The transports' own `Flush` methods are modelled.
