/** The framed TCP transport of transport_tcp.go. The TLS connection is an
    abstract handle; the outcomes of the dials and of the socket writes are
    scripts the transport consumes in order; marshalling is a partial function
    given by the caller. The state is also described as a value (`TcpState`)
    on which the specification functions work. */
module TransportTcp {
  import opened Records
  import opened Transport
  import Mapping
  import Writer

  const StklogDomain: string := "api.stklog.io"
  const StklogTcpPort: int := 4242
  const StackTag: string := "stack"
  const LogTag: string := "log"

  /** An established connection. */
  datatype Conn = Conn(id: nat)

  /** What one socket write reports: the bytes written and whether it erred. */
  datatype WriteResult = WriteResult(n: int, erred: bool)

  /** What the transport did on the network, in order. */
  datatype NetEvent =
    | Dialed(conn: Conn)
    | DialFailed
    | Wrote(conn: Conn, frame: string, result: WriteResult)
    | Closed(conn: Conn)

  /** `bytes.Join`. */
  function Join(parts: seq<string>, sep: string): string
  {
    if |parts| == 0 then []
    else if |parts| == 1 then parts[0]
    else parts[0] + sep + Join(parts[1..], sep)
  }

  /** The bytes `write` puts on the socket: the parts joined by a tab, then a newline. */
  function Frame(parts: seq<string>): string
  {
    Join(parts, "\t") + "\n"
  }

  /** Splits `s` at every occurrence of `c`. */
  function Split(s: string, c: char): (fields: seq<string>)
    ensures |fields| >= 1
    decreases |s|
  {
    var i := Mapping.IndexByte(s, c);
    if i < 0 then [s] else [s[..i]] + Split(s[i + 1..], c)
  }

  /** How a receiver reads a frame: drop the final newline, split at tabs. */
  function ParseFrame(frame: string): seq<string>
  {
    if |frame| > 0 && frame[|frame| - 1] == '\n' then Split(frame[..|frame| - 1], '\t') else []
  }

  predicate NoneContains(parts: seq<string>, c: char)
  {
    forall k :: 0 <= k < |parts| ==> c !in parts[k]
  }

  lemma {:induction false} SplitJoin(parts: seq<string>, c: char)
    requires |parts| >= 1 && NoneContains(parts, c)
    ensures Split(Join(parts, [c]), c) == parts
    decreases |parts|
  {
    if |parts| == 1 {
      assert Mapping.IndexByte(parts[0], c) == -1;
    } else {
      var rest := Join(parts[1..], [c]);
      var s := parts[0] + [c] + rest;
      assert Join(parts, [c]) == s;
      Mapping.TextBeforeFirst(s, parts[0], c);
      assert s[|parts[0]| + 1..] == rest;
      SplitJoin(parts[1..], c);
      assert s[..|parts[0]|] == parts[0];
    }
  }

  /** A frame whose parts hold no tab reads back as those parts. */
  lemma FrameRoundTrip(parts: seq<string>)
    requires |parts| >= 1 && NoneContains(parts, '\t')
    ensures ParseFrame(Frame(parts)) == parts
  {
    var f := Frame(parts);
    assert f[..|f| - 1] == Join(parts, "\t");
    SplitJoin(parts, '\t');
  }

  lemma {:induction false} JoinContains(parts: seq<string>, sep: string, c: char)
    requires c !in sep
    ensures c in Join(parts, sep) <==> exists k :: 0 <= k < |parts| && c in parts[k]
    decreases |parts|
  {
    if |parts| > 1 {
      JoinContains(parts[1..], sep, c);
      var j := Join(parts[1..], sep);
      assert Join(parts, sep) == parts[0] + sep + j;
      assert c in parts[0] + sep + j <==> c in parts[0] || c in sep || c in j;
      if exists k :: 0 <= k < |parts[1..]| && c in parts[1..][k] {
        var k :| 0 <= k < |parts[1..]| && c in parts[1..][k];
        assert c in parts[k + 1];
      }
      if exists k :: 0 <= k < |parts| && c in parts[k] {
        var k :| 0 <= k < |parts| && c in parts[k];
        if k > 0 { assert c in parts[1..][k - 1]; }
      }
    }
  }

  /** The trailing newline is the first newline of a frame exactly when no
      part holds a newline; a payload with a newline byte splits the line. */
  lemma FrameLineDelimited(parts: seq<string>)
    ensures (Mapping.IndexByte(Frame(parts), '\n') == |Frame(parts)| - 1) <==> NoneContains(parts, '\n')
  {
    var j := Join(parts, "\t");
    JoinContains(parts, "\t", '\n');
    assert Frame(parts) == j + "\n";
    if '\n' !in j {
      Mapping.TextBeforeFirst(Frame(parts), j, '\n');
    } else {
      var i := Mapping.IndexByte(Frame(parts), '\n');
      assert Frame(parts)[..|j|] == j;
    }
  }

  /** The transport's state as a value. */
  datatype TcpState = TcpState(
    options: Options,
    projectKey: string,
    conn: Option<Conn>,
    dialScript: seq<bool>,
    writeScript: seq<WriteResult>,
    dials: nat,
    closed: set<nat>,
    events: seq<NetEvent>)

  /** The state facts the transport keeps: every connection id handed out so
      far is below `dials`. */
  predicate Consistent(s: TcpState)
  {
    && (s.conn.Some? ==> s.conn.value.id < s.dials)
    && (forall id :: id in s.closed ==> id < s.dials)
  }

  function Tail<T>(s: seq<T>): seq<T>
  {
    if |s| > 0 then s[1..] else []
  }

  /** `Init`: reads the project key and dials; on failure the connection is
      left as it was. Every dial gets a new connection id. */
  function InitSpec(s: TcpState): (t: TcpState)
    ensures t.options == s.options && t.closed == s.closed && t.writeScript == s.writeScript
    ensures s.conn.Some? ==> t.conn.Some?
  {
    var s1 := s.(projectKey := GetProjectKey(s.options), dialScript := Tail(s.dialScript), dials := s.dials + 1);
    if |s.dialScript| > 0 && s.dialScript[0] then
      s1.(conn := Some(Conn(s.dials)), events := s.events + [Dialed(Conn(s.dials))])
    else
      s1.(events := s.events + [DialFailed])
  }

  /** The result of the next socket write: a closed connection fails without
      consuming the script, an exhausted script fails. */
  function NextResult(s: TcpState): WriteResult
    requires s.conn.Some?
  {
    if s.conn.value.id in s.closed then WriteResult(0, true)
    else if |s.writeScript| > 0 then s.writeScript[0]
    else WriteResult(0, true)
  }

  /** A write succeeded when it wrote the whole frame without error. */
  predicate Succeeded(frame: string, r: WriteResult)
  {
    r.n == |frame| && !r.erred
  }

  function AttemptSpec(s: TcpState, frame: string): TcpState
    requires s.conn.Some?
  {
    s.(writeScript := if s.conn.value.id in s.closed then s.writeScript else Tail(s.writeScript),
       events := s.events + [Wrote(s.conn.value, frame, NextResult(s))])
  }

  function CloseSpec(s: TcpState): TcpState
    requires s.conn.Some?
  {
    s.(closed := s.closed + {s.conn.value.id}, events := s.events + [Closed(s.conn.value)])
  }

  /** One attempt of `write`: the socket write and, when it fails, the close
      of the connection and a re-init. */
  function TryWrite(s: TcpState, frame: string): (t: TcpState)
    requires s.conn.Some?
    ensures t.conn.Some? && t.options == s.options
  {
    var s1 := AttemptSpec(s, frame);
    if Succeeded(frame, NextResult(s)) then s1 else InitSpec(CloseSpec(s1))
  }

  /** `write` of a frame: one attempt, and a second one only when the first
      failed and `retry` holds. */
  function WriteFrame(s: TcpState, frame: string, retry: bool): (t: TcpState)
    requires s.conn.Some?
    ensures t.conn.Some? && t.options == s.options
  {
    var s1 := TryWrite(s, frame);
    if Succeeded(frame, NextResult(s)) || !retry then s1 else TryWrite(s1, frame)
  }

  /** `write(msg, retry)`: the frame of the parts, written with at most one retry. */
  function WriteSpec(s: TcpState, parts: seq<string>, retry: bool): (t: TcpState)
    requires s.conn.Some?
    ensures t.conn.Some? && t.options == s.options
  {
    WriteFrame(s, Frame(parts), retry)
  }

  predicate IsReInit(e: NetEvent)
  {
    e.Dialed? || e.DialFailed?
  }

  /** A failed attempt: the write, the close of that connection, a re-dial. */
  predicate FailedAttempt(evs: seq<NetEvent>, frame: string)
  {
    && |evs| == 3
    && evs[0].Wrote? && evs[0].frame == frame && !Succeeded(frame, evs[0].result)
    && evs[1] == Closed(evs[0].conn)
    && IsReInit(evs[2])
  }

  predicate GoodAttempt(e: NetEvent, frame: string)
  {
    e.Wrote? && e.frame == frame && Succeeded(frame, e.result)
  }

  /** The trace one `write(msg, retry)` leaves: a good attempt; or, without
      retry, a failed one; or, with retry, a failed one followed by a good
      one or by a second failed one. */
  predicate WriteTrace(added: seq<NetEvent>, f: string, retry: bool)
  {
    || (|added| == 1 && GoodAttempt(added[0], f))
    || (!retry && FailedAttempt(added, f))
    || (retry && |added| == 4 && FailedAttempt(added[..3], f) && GoodAttempt(added[3], f))
    || (retry && |added| == 6 && FailedAttempt(added[..3], f) && FailedAttempt(added[3..], f))
  }

  /** One attempt and, when it fails, the close and re-init that follow it. */
  lemma OneAttempt(s: TcpState, f: string) returns (t: TcpState, added: seq<NetEvent>)
    requires s.conn.Some?
    ensures t == TryWrite(s, f) && t.events == s.events + added
    ensures Succeeded(f, NextResult(s)) ==> |added| == 1 && GoodAttempt(added[0], f)
    ensures !Succeeded(f, NextResult(s)) ==> FailedAttempt(added, f)
  {
    var c := s.conn.value;
    if Succeeded(f, NextResult(s)) {
      t := AttemptSpec(s, f);
      added := [Wrote(c, f, NextResult(s))];
    } else {
      t := InitSpec(CloseSpec(AttemptSpec(s, f)));
      added := t.events[|s.events|..];
      assert added == [Wrote(c, f, NextResult(s)), Closed(c), added[2]];
    }
  }

  /** Bounded retry: `write(msg, retry)` makes one attempt, or after a failed
      one (always followed by a close and a re-dial) at most one more when
      `retry` holds. Every attempt carries the same frame. */
  lemma WriteBoundedRetry(s: TcpState, parts: seq<string>, retry: bool)
    requires s.conn.Some?
    ensures var t := WriteSpec(s, parts, retry);
            s.events <= t.events && WriteTrace(t.events[|s.events|..], Frame(parts), retry)
  {
    var f := Frame(parts);
    var t := WriteFrame(s, f, retry);
    var s1, a1 := OneAttempt(s, f);
    if Succeeded(f, NextResult(s)) || !retry {
      assert t.events[|s.events|..] == a1;
    } else {
      var s2, a2 := OneAttempt(s1, f);
      assert t.events == s.events + (a1 + a2);
      assert t.events[|s.events|..] == a1 + a2;
      assert (a1 + a2)[..3] == a1;
      assert (a1 + a2)[3..] == a2;
    }
  }

  /** The scenario of a write that fails and a reconnect that succeeds: the
      frame goes once over the failed connection, which is closed, and once
      over the new one. */
  lemma RetryOnNewConnection(s: TcpState, parts: seq<string>)
    requires Consistent(s) && s.conn.Some? && s.conn.value.id !in s.closed
    requires |s.writeScript| >= 2
    requires !Succeeded(Frame(parts), s.writeScript[0])
    requires s.writeScript[1] == WriteResult(|Frame(parts)|, false)
    requires |s.dialScript| >= 1 && s.dialScript[0]
    ensures var t := WriteSpec(s, parts, true);
            var c, c' := s.conn.value, Conn(s.dials);
            && t.conn == Some(c')
            && t.events == s.events + [Wrote(c, Frame(parts), s.writeScript[0]), Closed(c), Dialed(c'),
                                       Wrote(c', Frame(parts), s.writeScript[1])]
  {
    var f := Frame(parts);
    var s2 := InitSpec(CloseSpec(AttemptSpec(s, f)));
    assert s2.conn == Some(Conn(s.dials));
    assert s.dials !in s2.closed;
    assert NextResult(s2) == s.writeScript[1];
  }

  /** The frames of one kind of record: one `[key, tag, payload]` per record
      that marshals, in order; a record that fails to marshal is skipped. */
  function TaggedFrames<T>(key: string, tag: string, records: seq<T>, marshal: T -> Option<string>): seq<seq<string>>
  {
    if records == [] then []
    else
      var last := records[|records| - 1];
      TaggedFrames(key, tag, records[..|records| - 1], marshal)
        + (match marshal(last) case Some(p) => [[key, tag, p]] case None => [])
  }

  lemma {:induction false} TaggedFramesAppend<T>(key: string, tag: string, a: seq<T>, b: seq<T>, marshal: T -> Option<string>)
    ensures TaggedFrames(key, tag, a + b, marshal) == TaggedFrames(key, tag, a, marshal) + TaggedFrames(key, tag, b, marshal)
    decreases |b|
  {
    if b == [] {
      assert a + b == a;
    } else {
      var b' := b[..|b| - 1];
      assert (a + b)[..|a + b| - 1] == a + b';
      assert (a + b)[|a + b| - 1] == b[|b| - 1];
      TaggedFramesAppend(key, tag, a, b', marshal);
    }
  }

  /** A record that fails to marshal is skipped and the others are still sent. */
  lemma FailedMarshalSkipped<T>(key: string, tag: string, a: seq<T>, x: T, b: seq<T>, marshal: T -> Option<string>)
    requires marshal(x).None?
    ensures TaggedFrames(key, tag, a + [x] + b, marshal) == TaggedFrames(key, tag, a, marshal) + TaggedFrames(key, tag, b, marshal)
  {
    TaggedFramesAppend(key, tag, a + [x], b, marshal);
    assert (a + [x])[..|a|] == a;
    assert TaggedFrames(key, tag, a + [x], marshal) == TaggedFrames(key, tag, a, marshal);
  }

  /** When every record marshals there is exactly one frame per record, in order. */
  lemma {:induction false} TaggedFramesAllMarshal<T>(key: string, tag: string, records: seq<T>, marshal: T -> Option<string>)
    requires forall k :: 0 <= k < |records| ==> marshal(records[k]).Some?
    ensures |TaggedFrames(key, tag, records, marshal)| == |records|
    ensures forall k :: 0 <= k < |records| ==>
              TaggedFrames(key, tag, records, marshal)[k] == [key, tag, marshal(records[k]).value]
    decreases |records|
  {
    if records != [] {
      var init := records[..|records| - 1];
      TaggedFramesAllMarshal(key, tag, init, marshal);
    }
  }

  /** The frames `Send` writes: all stack frames, then all log frames. */
  function SendFrames(options: Options, stacks: seq<StackRecord>, logs: seq<LogMessage>,
                      marshalStack: StackRecord -> Option<string>, marshalLog: LogMessage -> Option<string>): seq<seq<string>>
  {
    TaggedFrames(GetProjectKey(options), StackTag, stacks, marshalStack)
      + TaggedFrames(GetProjectKey(options), LogTag, logs, marshalLog)
  }

  /** The effect of writing `frames` one after another, each with a retry. */
  function WriteAll(s: TcpState, frames: seq<seq<string>>): (t: TcpState)
    requires s.conn.Some? || frames == []
    ensures t.options == s.options
    ensures s.conn.Some? ==> t.conn.Some?
    ensures frames == [] ==> t == s
    decreases |frames|
  {
    if frames == [] then s
    else WriteSpec(WriteAll(s, frames[..|frames| - 1]), frames[|frames| - 1], true)
  }

  /** `Init` re-reads the project key from the options and keeps the ids
      consistent; a successful dial installs a new
      connection that is not closed, a failed one leaves the connection as
      it was and only records the failure. */
  lemma InitConsistent(s: TcpState)
    requires Consistent(s)
    ensures Consistent(InitSpec(s))
    ensures InitSpec(s).projectKey == GetProjectKey(s.options)
    ensures |s.dialScript| > 0 && s.dialScript[0] ==> InitSpec(s).conn == Some(Conn(s.dials)) && s.dials !in InitSpec(s).closed
    ensures !(|s.dialScript| > 0 && s.dialScript[0]) ==> InitSpec(s).conn == s.conn && InitSpec(s).events == s.events + [DialFailed]
  {
  }

  /** An attempt, with its close and re-init, keeps the connection ids consistent. */
  lemma TryWriteConsistent(s: TcpState, frame: string)
    requires s.conn.Some? && Consistent(s)
    ensures Consistent(TryWrite(s, frame))
  {
    if !Succeeded(frame, NextResult(s)) {
      InitConsistent(CloseSpec(AttemptSpec(s, frame)));
    }
  }

  /** A write, with its closes and re-inits, keeps the connection ids consistent. */
  lemma WriteConsistent(s: TcpState, parts: seq<string>, retry: bool)
    requires s.conn.Some? && Consistent(s)
    ensures Consistent(WriteSpec(s, parts, retry))
  {
    var f := Frame(parts);
    TryWriteConsistent(s, f);
    TryWriteConsistent(TryWrite(s, f), f);
  }

  /** Writing any number of frames keeps the connection ids consistent. */
  lemma {:induction false} WriteAllConsistent(s: TcpState, frames: seq<seq<string>>)
    requires s.conn.Some? && Consistent(s)
    ensures Consistent(WriteAll(s, frames))
    decreases |frames|
  {
    if frames != [] {
      WriteAllConsistent(s, frames[..|frames| - 1]);
      WriteConsistent(WriteAll(s, frames[..|frames| - 1]), frames[|frames| - 1], true);
    }
  }

  /** The report of a socket write that puts the whole frame of `parts` out. */
  function FullWrite(parts: seq<string>): WriteResult
  {
    WriteResult(|Frame(parts)|, false)
  }

  /** Full writes of `frames`, one per frame, in order. */
  function FullWrites(frames: seq<seq<string>>): seq<WriteResult>
  {
    if frames == [] then [] else FullWrites(frames[..|frames| - 1]) + [FullWrite(frames[|frames| - 1])]
  }

  /** The events of frames that all go through on the first attempt over `c`. */
  function Delivered(c: Conn, frames: seq<seq<string>>): seq<NetEvent>
  {
    if frames == [] then []
    else
      var last := frames[|frames| - 1];
      Delivered(c, frames[..|frames| - 1]) + [Wrote(c, Frame(last), FullWrite(last))]
  }

  /** A write on an open connection whose scripted result is a full write
      consumes that result and adds its one event. */
  lemma GoodWrite(t: TcpState, parts: seq<string>)
    requires t.conn.Some? && t.conn.value.id !in t.closed
    requires |t.writeScript| > 0 && t.writeScript[0] == FullWrite(parts)
    ensures WriteSpec(t, parts, true)
            == t.(writeScript := t.writeScript[1..],
                  events := t.events + [Wrote(t.conn.value, Frame(parts), FullWrite(parts))])
  {
    var f := Frame(parts);
    assert Succeeded(f, NextResult(t));
    assert WriteFrame(t, f, true) == AttemptSpec(t, f);
  }

  /** When the connection is open and the next scripted writes are full
      writes of the frames, each frame is written exactly once, in order, on
      the same connection, and no connection is closed or dialled. */
  lemma {:induction false} WriteAllHappyPath(s: TcpState, frames: seq<seq<string>>)
    requires s.conn.Some? && s.conn.value.id !in s.closed
    requires |frames| <= |s.writeScript| && s.writeScript[..|frames|] == FullWrites(frames)
    ensures var t := WriteAll(s, frames);
            && t.events == s.events + Delivered(s.conn.value, frames)
            && t.conn == s.conn && t.closed == s.closed && t.dials == s.dials
            && t.writeScript == s.writeScript[|frames|..]
    decreases |frames|
  {
    if frames != [] {
      var n := |frames|;
      var init, last := frames[..n - 1], frames[n - 1];
      assert s.writeScript[..n - 1] == s.writeScript[..n][..n - 1];
      WriteAllHappyPath(s, init);
      var t0 := WriteAll(s, init);
      assert t0.writeScript[0] == s.writeScript[..n][n - 1];
      assert frames == init + [last];
      WriteAllStep(s, init, last);
      GoodWrite(t0, last);
      assert t0.writeScript[1..] == s.writeScript[n..];
    }
  }

  /** The TCP transport. */
  class TransportTCP {
    const options: Options
    var projectKey: string
    var conn: Option<Conn>
    var dialScript: seq<bool>
    var writeScript: seq<WriteResult>
    var dials: nat
    var closed: set<nat>
    var events: seq<NetEvent>

    function State(): TcpState
      reads this
    {
      TcpState(options, projectKey, conn, dialScript, writeScript, dials, closed, events)
    }

    constructor (options: Options, dialScript: seq<bool>, writeScript: seq<WriteResult>)
      ensures State() == TcpState(options, "", None, dialScript, writeScript, 0, {}, [])
    {
      this.options := options;
      this.projectKey := "";
      this.conn := None;
      this.dialScript := dialScript;
      this.writeScript := writeScript;
      this.dials := 0;
      this.closed := {};
      this.events := [];
    }

    /** `Init`: project key, then `tls.Dial`; a failed dial leaves `conn` as it was. */
    method Init()
      modifies this
      ensures State() == InitSpec(old(State()))
    {
      projectKey := GetProjectKey(options);
      var ok := |dialScript| > 0 && dialScript[0];
      var id := dials;
      dialScript, dials := Tail(dialScript), dials + 1;
      if !ok {
        events := events + [DialFailed];
        return;
      }
      conn := Some(Conn(id));
      events := events + [Dialed(Conn(id))];
    }

    /** One write on the socket. */
    method SocketWrite(msg: string) returns (r: WriteResult)
      requires conn.Some?
      modifies this
      ensures r == NextResult(old(State()))
      ensures State() == AttemptSpec(old(State()), msg)
    {
      r := NextResult(State());
      if conn.value.id !in closed {
        writeScript := Tail(writeScript);
      }
      events := events + [Wrote(conn.value, msg, r)];
    }

    /** `TCPConn.Close()`. */
    method CloseConn()
      requires conn.Some?
      modifies this
      ensures State() == CloseSpec(old(State()))
    {
      closed := closed + {conn.value.id};
      events := events + [Closed(conn.value)];
    }

    /** `write`: frames the parts and writes them, closing, re-initialising
        and (once) retrying on a short write or an error. */
    method Write(parts: seq<string>, retry: bool)
      requires conn.Some?
      modifies this
      ensures State() == WriteSpec(old(State()), parts, retry)
      decreases retry
    {
      var msg := Join(parts, "\t");
      msg := msg + "\n";
      var r := SocketWrite(msg);
      if r.n != |msg| || r.erred {
        CloseConn();
        Init();
        if retry {
          Write(parts, false);
        }
      }
    }

    /** One of `Send`'s two loops: for each record that marshals, one framed
        `[key, tag, payload]` write with retry; a record that fails is skipped. */
    method WriteTagged<T>(tag: string, records: seq<T>, marshal: T -> Option<string>)
      requires conn.Some? || TaggedFrames(GetProjectKey(options), tag, records, marshal) == []
      modifies this
      ensures State() == WriteAll(old(State()), TaggedFrames(GetProjectKey(options), tag, records, marshal))
    {
      ghost var s0 := State();
      var key := GetProjectKey(options);
      ghost var frames: seq<seq<string>> := [];
      var i := 0;
      while i < |records|
        invariant 0 <= i <= |records|
        invariant frames == TaggedFrames(key, tag, records[..i], marshal)
        invariant s0.conn.Some? ==> conn.Some?
        invariant s0.conn.Some? || frames == []
        invariant State() == WriteAll(s0, frames)
        decreases |records| - i
      {
        var content := marshal(records[i]);
        TaggedFramesStep(key, tag, records, i, marshal);
        if content.None? {
          i := i + 1;
          continue;
        }
        var msg := [key, tag, content.value];
        MarshalledRecordFramed(key, tag, records, i, marshal);
        WriteAllStep(s0, frames, msg);
        Write(msg, true);
        frames := frames + [msg];
        i := i + 1;
      }
      assert records[..i] == records;
    }

    /** `Send`: drains the buffer, then writes one frame per stack and one per
        log that marshals, skipping those that do not. */
    method Send(buffer: Writer.MsgBuffer, marshalStack: StackRecord -> Option<string>,
                marshalLog: LogMessage -> Option<string>)
      requires conn.Some? || SendFrames(options, buffer.stacks, buffer.logs, marshalStack, marshalLog) == []
      modifies this, buffer
      ensures buffer.stacks == [] && buffer.logs == []
      ensures State() == WriteAll(old(State()), SendFrames(options, old(buffer.stacks), old(buffer.logs), marshalStack, marshalLog))
    {
      var stacks, logs := buffer.CloneResetBuffers();
      ghost var s0 := State();
      WriteTagged(StackTag, stacks, marshalStack);
      WriteTagged(LogTag, logs, marshalLog);
      WriteAllAppend(s0, TaggedFrames(GetProjectKey(options), StackTag, stacks, marshalStack),
                     TaggedFrames(GetProjectKey(options), LogTag, logs, marshalLog));
    }

    /** `Flush`: nothing when both buffers are empty, else one `Send`. */
    method Flush(buffer: Writer.MsgBuffer, marshalStack: StackRecord -> Option<string>,
                 marshalLog: LogMessage -> Option<string>)
      requires conn.Some? || SendFrames(options, buffer.stacks, buffer.logs, marshalStack, marshalLog) == []
      modifies this, buffer
      ensures old(buffer.stacks) == [] && old(buffer.logs) == [] ==>
                State() == old(State()) && buffer.stacks == [] && buffer.logs == []
      ensures old(buffer.stacks) != [] || old(buffer.logs) != [] ==>
                && buffer.stacks == [] && buffer.logs == []
                && State() == WriteAll(old(State()), SendFrames(options, old(buffer.stacks), old(buffer.logs), marshalStack, marshalLog))
    {
      if |buffer.logs| == 0 && |buffer.stacks| == 0 {
        return;
      }
      Send(buffer, marshalStack, marshalLog);
    }
  }

  /** One more record: its frame, if it marshals, comes after the earlier ones. */
  lemma TaggedFramesStep<T>(key: string, tag: string, records: seq<T>, i: int, marshal: T -> Option<string>)
    requires 0 <= i < |records|
    ensures TaggedFrames(key, tag, records[..i + 1], marshal)
              == TaggedFrames(key, tag, records[..i], marshal)
                 + (match marshal(records[i]) case Some(p) => [[key, tag, p]] case None => [])
  {
    assert records[..i + 1][..i] == records[..i];
  }

  /** A record that marshals adds a frame: the frames up to it end with its
      frame, so the frames of the whole sequence are not empty. */
  lemma MarshalledRecordFramed<T>(key: string, tag: string, records: seq<T>, i: int, marshal: T -> Option<string>)
    requires 0 <= i < |records| && marshal(records[i]).Some?
    ensures TaggedFrames(key, tag, records[..i + 1], marshal)
            == TaggedFrames(key, tag, records[..i], marshal) + [[key, tag, marshal(records[i]).value]]
    ensures TaggedFrames(key, tag, records, marshal) != []
  {
    TaggedFramesStep(key, tag, records, i, marshal);
    TaggedFramesAppend(key, tag, records[..i + 1], records[i + 1..], marshal);
    assert records[..i + 1] + records[i + 1..] == records;
  }

  lemma WriteAllStep(s: TcpState, frames: seq<seq<string>>, f: seq<string>)
    requires s.conn.Some?
    ensures WriteAll(s, frames + [f]) == WriteSpec(WriteAll(s, frames), f, true)
  {
    assert (frames + [f])[..|frames|] == frames;
  }

  lemma {:induction false} WriteAllAppend(s: TcpState, a: seq<seq<string>>, b: seq<seq<string>>)
    requires s.conn.Some? || a + b == []
    ensures WriteAll(s, a + b) == WriteAll(WriteAll(s, a), b)
    decreases |b|
  {
    if b == [] {
      assert a + b == a;
    } else {
      var b' := b[..|b| - 1];
      assert (a + b)[..|a + b| - 1] == a + b';
      assert (a + b)[|a + b| - 1] == b[|b| - 1];
      WriteAllAppend(s, a, b');
    }
  }
}
