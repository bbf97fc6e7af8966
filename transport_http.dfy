/** The batched HTTP transport of transport_http.go. The HTTP client is left
    out: a request is the record of what would be posted, and the response
    is an input of the classification. */
module TransportHttp {
  import opened Records
  import opened Batching
  import opened Transport
  import Writer

  const KeyBatchSize: string := "batch_size"
  const MaxBatchSize: int := 500
  const DefaultBatchSize: int := 200
  const StklogHost: string := "https://api.stklog.io"
  const StacksEndpoint: string := "stacks"
  const LogsEndpoint: string := "logs"
  const StacksUrl: string := StklogHost + "/" + StacksEndpoint
  const LogsUrl: string := StklogHost + "/" + LogsEndpoint

  const StatusOK: int := 200
  const StatusUnauthorized: int := 401

  /** A configured batch size the transport accepts: an int in (0, 500]. */
  predicate ValidBatchOption(options: Options)
  {
    KeyBatchSize in options && options[KeyBatchSize].VInt?
    && 0 < options[KeyBatchSize].i <= MaxBatchSize
  }

  /** `GetBatchSize`: the configured size when it is valid, else 200; the
      result is always within [1, 500]. */
  function GetBatchSize(options: Options): (n: int)
    ensures 1 <= n <= MaxBatchSize
    ensures ValidBatchOption(options) ==> n == options[KeyBatchSize].i
    ensures !ValidBatchOption(options) ==> n == DefaultBatchSize
  {
    match GetOption(options, KeyBatchSize)
    case (VInt(v), true) => if v <= MaxBatchSize && v > 0 then v else DefaultBatchSize
    case _ => DefaultBatchSize
  }

  /** What `execRequest` can observe: no response at all, or a status code. */
  datatype Response = NoResponse | Status(code: int)

  /** How `execRequest` classifies a response. Each outcome only leads to a
      diagnostic line; none leads to another attempt. */
  datatype Outcome = UnexpectedError | InvalidProjectKey | SendFailed(status: int) | Delivered

  function ExecRequest(resp: Response): (o: Outcome)
    ensures o.UnexpectedError? <==> resp.NoResponse?
    ensures o.InvalidProjectKey? <==> resp == Status(StatusUnauthorized)
    ensures o.Delivered? <==> resp == Status(StatusOK)
    ensures o.SendFailed? <==> resp.Status? && resp.code != StatusUnauthorized && resp.code != StatusOK
    ensures o.SendFailed? ==> o.status == resp.code
  {
    match resp
    case NoResponse => UnexpectedError
    case Status(code) =>
      if code == StatusUnauthorized then InvalidProjectKey
      else if code != StatusOK then SendFailed(code)
      else Delivered
  }

  /** The number of `Send` rounds `Flush` makes: max(stacks, logs) / size + 1,
      the least count with count * size strictly above the larger buffer.
      When that buffer is a multiple of `size` (zero included) this is one
      round more than the batches need (see `FlushRoundsAgainstBatches`). */
  function FlushRounds(stackCount: nat, logCount: nat, size: int): (count: int)
    requires size >= 1
    ensures count >= 1
    ensures count * size > Max(stackCount, logCount)
    ensures (count - 1) * size <= Max(stackCount, logCount)
  {
    var m := Max(stackCount, logCount);
    var q := m / size;
    assert m == q * size + m % size;
    assert (q + 1) * size == q * size + size;
    q + 1
  }

  /** `Flush` makes ceil(m / size) rounds, the number of batches of the larger
      buffer m, plus one extra round when m is a multiple of `size`. */
  lemma FlushRoundsAgainstBatches(stackCount: nat, logCount: nat, size: int)
    requires size >= 1
    ensures var m := Max(stackCount, logCount);
            FlushRounds(stackCount, logCount, size) == CeilDiv(m, size) + (if m % size == 0 then 1 else 0)
  {
    var m := Max(stackCount, logCount);
    var q, r := m / size, m % size;
    assert m == q * size + r;
    if r == 0 {
      DivUnique(m + size - 1, size, q, size - 1);
    } else {
      DivUnique(m + size - 1, size, q + 1, r - 1);
    }
  }

  lemma MulMonotone(a: int, b: int, c: int)
    requires a <= b && c >= 0
    ensures a * c <= b * c
  {
    assert b * c == a * c + (b - a) * c;
  }

  /** The percentage `Flush` prints after round `i` of `count` stays below 100. */
  lemma ProgressBelowHundred(i: int, count: int)
    requires 0 <= i < count
    ensures 0 <= 100 * i / count < 100
  {
    var q, r := 100 * i / count, 100 * i % count;
    assert 100 * i == q * count + r;
    MulMonotone(i + 1, count, 100);
    if q >= 100 {
      MulMonotone(100, q, count);
      assert false;
    }
  }

  /** The percentage `Flush` prints after round `i` of `count`. */
  function Progress(i: int, count: int): (p: int)
    requires 0 <= i < count
    ensures 0 <= p < 100
  {
    ProgressBelowHundred(i, count);
    100 * i / count
  }

  /** Three logs under batch size 2 go out as two posts to the logs endpoint,
      of two records and then one, and no stack post is made. */
  lemma ThreeLogsInBatchesOfTwo(l1: LogMessage, l2: LogMessage, l3: LogMessage)
    ensures BatchPosts(StacksUrl, LogsUrl, "abc123", [], [l1, l2, l3], 2)
            == [Post(LogsUrl, "abc123", LogBatch([l1, l2])), Post(LogsUrl, "abc123", LogBatch([l3]))]
  {
    var noStacks: seq<StackRecord> := [];
    var logs := [l1, l2, l3];
    var last := logs[2..];
    assert Chunks(noStacks, 2) == [];
    assert last == [l3] && last[..Min(2, |last|)] == [l3] && last[Min(2, |last|)..] == [];
    assert Chunks(last[Min(2, |last|)..], 2) == [];
    assert Chunks(last, 2) == [[l3]];
    assert logs[..Min(2, |logs|)] == [l1, l2] && logs[Min(2, |logs|)..] == last;
    assert Chunks(logs, 2) == [[l1, l2], [l3]];
  }

  /** The HTTP transport: options, the project key and the batch size. */
  class TransportHTTP {
    const options: Options
    var projectKey: string
    var batchSize: int

    constructor (options: Options)
      ensures this.options == options && projectKey == "" && batchSize == 0
    {
      this.options := options;
      projectKey, batchSize := "", 0;
    }

    /** `Init`: reads the batch size and the project key from the options. */
    method Init()
      modifies this
      ensures batchSize == GetBatchSize(options)
      ensures projectKey == GetProjectKey(options)
    {
      batchSize := GetBatchSize(options);
      projectKey := GetProjectKey(options);
    }

    /** `Send`: drains the buffer and posts its stacks, then its logs, in
        batches of `batchSize`, under the project key read from the options. */
    method Send(buffer: Writer.MsgBuffer) returns (requests: seq<Request>)
      requires batchSize >= 1
      modifies buffer
      ensures buffer.stacks == [] && buffer.logs == []
      ensures requests == BatchPosts(StacksUrl, LogsUrl, GetProjectKey(options),
                                     old(buffer.stacks), old(buffer.logs), batchSize)
    {
      var stacks, logs := buffer.CloneResetBuffers();
      var size, key := batchSize, GetProjectKey(options);
      requests := [];
      if |stacks| > 0 {
        var batches := SliceBatches(stacks, size);
        requests := requests + Posts(StacksUrl, key, StackBodies(batches));
      }
      if |logs| > 0 {
        var batches := SliceBatches(logs, size);
        requests := requests + Posts(LogsUrl, key, LogBodies(batches));
      }
      assert |stacks| == 0 ==> Chunks(stacks, size) == [];
      assert |logs| == 0 ==> Chunks(logs, size) == [];
    }

    /** `Flush`: calls `Send` `FlushRounds` times and reports progress after
        each round. The first round drains everything; the later rounds find
        the buffer empty and post nothing. */
    method Flush(buffer: Writer.MsgBuffer) returns (rounds: seq<seq<Request>>, progress: seq<int>)
      requires batchSize >= 1
      modifies buffer
      ensures |rounds| == |progress| == FlushRounds(|old(buffer.stacks)|, |old(buffer.logs)|, batchSize)
      ensures forall k :: 0 <= k < |progress| ==> progress[k] == Progress(k, |progress|)
      ensures rounds[0] == BatchPosts(StacksUrl, LogsUrl, GetProjectKey(options),
                                      old(buffer.stacks), old(buffer.logs), batchSize)
      ensures forall k :: 1 <= k < |rounds| ==> rounds[k] == []
      ensures buffer.stacks == [] && buffer.logs == []
    {
      var size := batchSize;
      var count := Max(|buffer.stacks|, |buffer.logs|) / size + 1;
      assert count == FlushRounds(|buffer.stacks|, |buffer.logs|, size);
      ghost var drained := (buffer.stacks, buffer.logs);
      ghost var key := GetProjectKey(options);
      rounds, progress := [], [];
      var i := 0;
      while i < count
        invariant 0 <= i <= count
        invariant |rounds| == |progress| == i
        invariant forall k :: 0 <= k < i ==> progress[k] == Progress(k, count)
        invariant i == 0 ==> buffer.stacks == drained.0 && buffer.logs == drained.1
        invariant i > 0 ==> buffer.stacks == [] && buffer.logs == []
        invariant i > 0 ==> rounds[0] == BatchPosts(StacksUrl, LogsUrl, key, drained.0, drained.1, size)
        invariant forall k :: 1 <= k < i ==> rounds[k] == []
        decreases count - i
      {
        var rs := Send(buffer);
        if i > 0 {
          BatchPostsEmpty(StacksUrl, LogsUrl, key, size);
        }
        rounds := rounds + [rs];
        progress := progress + [Progress(i, count)];
        i := i + 1;
      }
    }
  }
}
