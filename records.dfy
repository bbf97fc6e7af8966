/** Values shared by the stack, buffer and transport components.
    Go strings and byte slices are both modelled as `string` (a sequence of
    characters standing for the bytes). */
module Records {

  datatype Option<T> = None | Some(value: T)

  /** A Go `interface{}` value as it can appear in options and extra fields.
      `VInt` holds a value of Go's `int` type only; values of the other
      numeric types (`int64`, `uint`, `float64`, ...) are `VOther`, since a
      type switch on `int` does not match them. */
  datatype Value =
    | VNil
    | VBool(b: bool)
    | VInt(i: int)
    | VString(s: string)
    | VOther(typeName: string)

  /** `Options` of transport.go and the `map[string]interface{}` extra fields. */
  type Options = map<string, Value>
  type Fields = map<string, Value>

  /** A source location as the runtime reports it. */
  datatype Location = Location(file: string, line: int)

  /** A value copy of a `Stack` (the record the writer loop buffers). */
  datatype StackRecord = StackRecord(
    parentRequestID: string,
    name: string,
    extra: Fields,
    requestID: string,
    timestamp: string,
    line: int,
    file: string,
    hostname: string,
    pushed: bool)

  /** The normalized log of writer.go (`LogMessage`); `level` is an int32. */
  datatype LogMessage = LogMessage(
    level: int,
    extra: Fields,
    message: string,
    requestID: string,
    timestamp: string,
    line: int,
    file: string)

  /** What producers hand to the writer loop: a log, a stack, or anything else. */
  datatype Message = MsgLog(log: LogMessage) | MsgStack(stack: StackRecord) | MsgOther(description: string)

  /** The producer side of `chanBuffer`: every send is recorded in order. */
  class Channel {
    var sent: seq<Message>

    constructor ()
      ensures sent == []
    {
      sent := [];
    }

    method Send(m: Message)
      modifies this
      ensures sent == old(sent) + [m]
    {
      sent := sent + [m];
    }
  }

  /** The body of one HTTP request: a batch of stacks or a batch of logs. */
  datatype Body = StackBatch(stacks: seq<StackRecord>) | LogBatch(logs: seq<LogMessage>)

  /** One POST to the collector: its URL, the project key header and the body. */
  datatype Request = Post(url: string, projectKey: string, body: Body)

  function Min(x: int, y: int): (r: int)
    ensures r <= x && r <= y
    ensures r == x || r == y
  {
    if x < y then x else y
  }

  function Max(x: int, y: int): (r: int)
    ensures r >= x && r >= y
    ensures r == x || r == y
  {
    if x < y then y else x
  }
}
