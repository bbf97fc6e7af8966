/** The writer of writer.go: the buffer of pending stacks and logs, the
    dispatch loop that fills it and drains it, and the batched send. The loop
    is a step method over events; the ticker's `go send(...)` is taken as a
    send that completes before the next event. */
module Writer {
  import opened Records
  import opened Batching

  const StklogHost: string := "https://api.stklog.io"
  const StacksEndpoint: string := "stacks"
  const LogsEndpoint: string := "logs"
  /** Fixed batch size of the writer's `send`. */
  const BatchSize: nat := 100

  const StacksUrl: string := StklogHost + "/" + StacksEndpoint
  const LogsUrl: string := StklogHost + "/" + LogsEndpoint

  /** The global `buffer`: pending stacks and logs, in arrival order. */
  class MsgBuffer {
    var stacks: seq<StackRecord>
    var logs: seq<LogMessage>

    constructor ()
      ensures stacks == [] && logs == []
    {
      stacks, logs := [], [];
    }

    /** `cloneResetBuffers`: copies both sequences out and empties them. */
    method CloneResetBuffers() returns (s: seq<StackRecord>, l: seq<LogMessage>)
      modifies this
      ensures s == old(stacks) && l == old(logs)
      ensures stacks == [] && logs == []
    {
      s, l := stacks, logs;
      stacks, logs := [], [];
    }
  }

  /** What the loop's `select` can observe: a message on `chanBuffer`, a
      ticker tick, or the flush signal. */
  datatype Event = Receive(msg: Message) | Tick | FlushSignal

  /** `send`: drains the buffer and posts its stacks, then its logs, in
      batches of `BatchSize`, one request per batch and no retry. */
  method Send(buffer: MsgBuffer, projectKey: string) returns (requests: seq<Request>)
    modifies buffer
    ensures buffer.stacks == [] && buffer.logs == []
    ensures requests == BatchPosts(StacksUrl, LogsUrl, projectKey, old(buffer.stacks), old(buffer.logs), BatchSize)
  {
    var stacks, logs := buffer.CloneResetBuffers();
    requests := [];
    if |stacks| > 0 {
      var batches := SliceBatches(stacks, BatchSize);
      requests := requests + Posts(StacksUrl, projectKey, StackBodies(batches));
    }
    if |logs| > 0 {
      var batches := SliceBatches(logs, BatchSize);
      requests := requests + Posts(LogsUrl, projectKey, LogBodies(batches));
    }
    assert |stacks| == 0 ==> Chunks(stacks, BatchSize) == [];
    assert |logs| == 0 ==> Chunks(logs, BatchSize) == [];
  }

  /** One iteration of `writerLoop`: a log or a stack is appended to its
      buffer, any other message is ignored, a tick drains and sends, the flush
      signal drains, sends and ends the loop. */
  method Step(buffer: MsgBuffer, projectKey: string, ev: Event) returns (requests: seq<Request>, exit: bool)
    modifies buffer
    ensures exit <==> ev.FlushSignal?
    ensures ev.Receive? ==> requests == []
    ensures ev.Receive? && ev.msg.MsgLog? ==>
              buffer.logs == old(buffer.logs) + [ev.msg.log] && buffer.stacks == old(buffer.stacks)
    ensures ev.Receive? && ev.msg.MsgStack? ==>
              buffer.stacks == old(buffer.stacks) + [ev.msg.stack] && buffer.logs == old(buffer.logs)
    ensures ev.Receive? && ev.msg.MsgOther? ==>
              buffer.stacks == old(buffer.stacks) && buffer.logs == old(buffer.logs)
    ensures !ev.Receive? ==>
              && buffer.stacks == [] && buffer.logs == []
              && requests == BatchPosts(StacksUrl, LogsUrl, projectKey, old(buffer.stacks), old(buffer.logs), BatchSize)
  {
    requests, exit := [], false;
    match ev
    case Receive(msg) =>
      match msg {
        case MsgLog(l) => buffer.logs := buffer.logs + [l];
        case MsgStack(s) => buffer.stacks := buffer.stacks + [s];
        case MsgOther(_) =>
      }
    case Tick =>
      requests := Send(buffer, projectKey);
    case FlushSignal =>
      requests := Send(buffer, projectKey);
      exit := true;
  }

  /** The stacks received among `events`, in order. */
  function ReceivedStacks(events: seq<Event>): seq<StackRecord>
  {
    if events == [] then []
    else
      var last := events[|events| - 1];
      ReceivedStacks(events[..|events| - 1])
        + (if last.Receive? && last.msg.MsgStack? then [last.msg.stack] else [])
  }

  /** The logs received among `events`, in order. */
  function ReceivedLogs(events: seq<Event>): seq<LogMessage>
  {
    if events == [] then []
    else
      var last := events[|events| - 1];
      ReceivedLogs(events[..|events| - 1])
        + (if last.Receive? && last.msg.MsgLog? then [last.msg.log] else [])
  }

  /** `writerLoop` over a finite run of events: it handles them in order
      until the flush signal, after which it stops and acknowledges. Every
      received record is either sent, in arrival order, or still buffered;
      after the flush nothing is left buffered. */
  method RunLoop(buffer: MsgBuffer, projectKey: string, events: seq<Event>)
    returns (requests: seq<Request>, processed: nat, acked: bool)
    modifies buffer
    ensures processed <= |events|
    ensures acked ==> 0 < processed && events[processed - 1].FlushSignal?
    ensures !acked ==> processed == |events|
    ensures forall k :: 0 <= k < (if acked then processed - 1 else processed) ==> !events[k].FlushSignal?
    ensures SentStacks(requests) + buffer.stacks == old(buffer.stacks) + ReceivedStacks(events[..processed])
    ensures SentLogs(requests) + buffer.logs == old(buffer.logs) + ReceivedLogs(events[..processed])
    ensures acked ==> buffer.stacks == [] && buffer.logs == []
  {
    requests, processed, acked := [], 0, false;
    while processed < |events| && !acked
      invariant 0 <= processed <= |events|
      invariant acked ==> 0 < processed && events[processed - 1].FlushSignal?
      invariant acked ==> buffer.stacks == [] && buffer.logs == []
      invariant forall k :: 0 <= k < (if acked then processed - 1 else processed) ==> !events[k].FlushSignal?
      invariant SentStacks(requests) + buffer.stacks == old(buffer.stacks) + ReceivedStacks(events[..processed])
      invariant SentLogs(requests) + buffer.logs == old(buffer.logs) + ReceivedLogs(events[..processed])
      decreases |events| - processed
    {
      ghost var pending := (buffer.stacks, buffer.logs);
      var ev := events[processed];
      var rs, exit := Step(buffer, projectKey, ev);
      StepAccounted(old(buffer.stacks), old(buffer.logs), requests, rs, pending.0, pending.1,
                    buffer.stacks, buffer.logs, events, processed, projectKey);
      requests := requests + rs;
      processed := processed + 1;
      acked := exit;
    }
  }

  /** One loop step keeps the accounting: what was sent plus what is
      buffered is what was buffered at the start plus what was received. */
  lemma StepAccounted(initialStacks: seq<StackRecord>, initialLogs: seq<LogMessage>,
                      requests: seq<Request>, rs: seq<Request>,
                      stacks: seq<StackRecord>, logs: seq<LogMessage>,
                      stacks': seq<StackRecord>, logs': seq<LogMessage>,
                      events: seq<Event>, i: nat, projectKey: string)
    requires i < |events|
    requires SentStacks(requests) + stacks == initialStacks + ReceivedStacks(events[..i])
    requires SentLogs(requests) + logs == initialLogs + ReceivedLogs(events[..i])
    requires events[i].Receive? ==> rs == []
    requires events[i].Receive? && events[i].msg.MsgLog? ==> logs' == logs + [events[i].msg.log] && stacks' == stacks
    requires events[i].Receive? && events[i].msg.MsgStack? ==> stacks' == stacks + [events[i].msg.stack] && logs' == logs
    requires events[i].Receive? && events[i].msg.MsgOther? ==> stacks' == stacks && logs' == logs
    requires !events[i].Receive? ==>
               && stacks' == [] && logs' == []
               && rs == BatchPosts(StacksUrl, LogsUrl, projectKey, stacks, logs, BatchSize)
    ensures SentStacks(requests + rs) + stacks' == initialStacks + ReceivedStacks(events[..i + 1])
    ensures SentLogs(requests + rs) + logs' == initialLogs + ReceivedLogs(events[..i + 1])
  {
    var ev := events[i];
    SentAppend(requests, rs);
    if !ev.Receive? {
      BatchPostsLossless(StacksUrl, LogsUrl, projectKey, stacks, logs, BatchSize);
    }
    assert events[..i + 1][..i] == events[..i];
    Accounted(initialStacks, SentStacks(requests), stacks, ReceivedStacks(events[..i]),
              if ev.Receive? && ev.msg.MsgStack? then [ev.msg.stack] else [],
              SentStacks(requests + rs), stacks');
    Accounted(initialLogs, SentLogs(requests), logs, ReceivedLogs(events[..i]),
              if ev.Receive? && ev.msg.MsgLog? then [ev.msg.log] else [],
              SentLogs(requests + rs), logs');
  }

  /** Bookkeeping of one loop step: a receive adds to the buffer, a drain
      moves the buffer into what was sent. */
  lemma Accounted<T>(initial: seq<T>, sent: seq<T>, pending: seq<T>, received: seq<T>, added: seq<T>,
                     sent': seq<T>, pending': seq<T>)
    requires sent + pending == initial + received
    requires || (sent' == sent && pending' == pending + added)
             || (added == [] && sent' == sent + pending && pending' == [])
    ensures sent' + pending' == initial + (received + added)
  {
    if sent' == sent && pending' == pending + added {
      assert sent + (pending + added) == (sent + pending) + added;
    } else {
      assert received + added == received;
    }
  }

  /** The process-wide `running` flag and the loops started so far. */
  class WriterProcess {
    var running: bool
    var loops: seq<string>

    constructor ()
      ensures !running && loops == []
    {
      running, loops := false, [];
    }

    /** `start`: launches the loop with the project key unless one is running. */
    method Start(projectKey: string)
      modifies this
      ensures old(running) ==> running && loops == old(loops)
      ensures !old(running) ==> running && loops == old(loops) + [projectKey]
    {
      if running {
        return;
      }
      loops := loops + [projectKey];
      running := true;
    }
  }
}
