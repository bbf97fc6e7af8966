/** The logrus hook of stklog_hook.go: level selection, the normalisation of a
    log entry in `Fire`, the caller lookup that skips logrus's own frames, and
    `start`, which picks the transport once per process. The call stack that
    `runtime.Caller` walks is a sequence of locations, indexed as `getCaller`
    sees it (index 0 is `getCaller` itself, 1 its caller, and so on). */
module Hook {
  import opened Records
  import opened Mapping
  import opened Stacks
  import opened Transport
  import TransportHttp

  /** A `logrus.Level`: a uint32. */
  type Level = x: int | 0 <= x < 0x1_0000_0000

  const PanicLevel: Level := 0
  const FatalLevel: Level := 1
  const ErrorLevel: Level := 2
  const WarnLevel: Level := 3
  const InfoLevel: Level := 4
  const DebugLevel: Level := 5

  /** `logrus.AllLevels`, most severe first. */
  const AllLevels: seq<Level> := [PanicLevel, FatalLevel, ErrorLevel, WarnLevel, InfoLevel, DebugLevel]

  /** Option key that selects the transport. */
  const KeyTransport: string := "transport"

  /** The suffixes `getCallerIgnoringLogMulti` ignores. */
  const IgnoredSuffixes: seq<string> :=
    ["logrus/hooks.go", "logrus/entry.go", "logrus/logger.go", "logrus/exported.go", "asm_amd64.s"]

  /** The file and line reported when the call stack runs out. */
  const UnknownCaller: Location := Location("???", 0)

  /** Go's conversion of an integer to int32: two's-complement wrap-around. */
  function WrapInt32(x: int): (r: int)
    ensures -0x8000_0000 <= r < 0x8000_0000
    ensures (r - x) % 0x1_0000_0000 == 0
    ensures -0x8000_0000 <= x < 0x8000_0000 ==> r == x
    ensures 0x8000_0000 <= x < 0x1_0000_0000 ==> r == x - 0x1_0000_0000
  {
    (x + 0x8000_0000) % 0x1_0000_0000 - 0x8000_0000
  }

  /** The `Level` field `Fire` writes: `int32(entry.Level) + 1` in int32 arithmetic.
      Every level below 2^31 - 1 is shifted up by one; the int32 maximum wraps
      to the minimum, and the upper half of uint32 reads as negative. */
  function LogLevel(level: Level): (r: int)
    ensures level < 0x7fff_ffff ==> r == level + 1
    ensures level == 0x7fff_ffff ==> r == -0x8000_0000
    ensures level >= 0x8000_0000 ==> r == level - 0x1_0000_0000 + 1
  {
    WrapInt32(WrapInt32(level) + 1)
  }

  /** The levels of `levels` that `SetLevel(level)` keeps, in order: those not
      above `level` once both are read as int32. */
  function Keep(levels: seq<Level>, level: Level): seq<Level>
  {
    if levels == [] then []
    else
      var last := levels[|levels| - 1];
      Keep(levels[..|levels| - 1], level) + (if WrapInt32(last) <= WrapInt32(level) then [last] else [])
  }

  /** How many of `AllLevels` a threshold keeps: all those up to `level`, or
      none when `level` reads as a negative int32. */
  function KeptCount(level: Level): nat
  {
    if level >= 0x8000_0000 then 0 else Min(level, DebugLevel) + 1
  }

  /** Level `k`, for `k` among `AllLevels`, is kept exactly when `k < KeptCount(level)`. */
  lemma KeptCountThreshold(k: nat, level: Level)
    requires k < |AllLevels|
    ensures (WrapInt32(k) <= WrapInt32(level)) <==> k < KeptCount(level)
  {
    assert WrapInt32(k) == k;
  }

  /** Keeping from levels `0, 1, ..., n-1` (with `n` at most the number of
      levels) keeps the first `KeptCount(level)` of them. */
  lemma {:induction false} KeepCountingPrefix(levels: seq<Level>, level: Level)
    requires |levels| <= |AllLevels|
    requires forall k :: 0 <= k < |levels| ==> levels[k] == k
    ensures Keep(levels, level) == levels[..Min(|levels|, KeptCount(level))]
    decreases |levels|
  {
    if levels != [] {
      var n := |levels|;
      var init := levels[..n - 1];
      KeepCountingPrefix(init, level);
      KeptCountThreshold(n - 1, level);
      assert levels[n - 1] == n - 1;
      if n <= KeptCount(level) {
        assert levels == init + [levels[n - 1]];
      } else {
        assert init[..Min(n - 1, KeptCount(level))] == levels[..Min(n, KeptCount(level))];
      }
    }
  }

  /** `SetLevel(level)` selects the `level` most severe levels and `level`
      itself, in `AllLevels` order; a level that reads as a negative int32
      selects none. */
  lemma SetLevelSelectsUpTo(level: Level)
    ensures Keep(AllLevels, level) == AllLevels[..KeptCount(level)]
  {
    KeepCountingPrefix(AllLevels, level);
  }

  /** A level is selected exactly when it is not above the threshold, read as int32. */
  lemma SetLevelSelectsExactly(level: Level, l: Level)
    ensures l in Keep(AllLevels, level) <==> l in AllLevels && WrapInt32(l) <= WrapInt32(level)
  {
    SetLevelSelectsUpTo(level);
    var kept := AllLevels[..KeptCount(level)];
    assert l in AllLevels <==> l <= DebugLevel;
    if l in kept {
      var k :| 0 <= k < |kept| && kept[k] == l;
      assert AllLevels[k] == k;
    }
    if l <= DebugLevel && WrapInt32(l) <= WrapInt32(level) {
      assert kept[l] == l;
    }
  }

  /** `unicode.IsSpace`. */
  predicate IsSpace(c: char)
  {
    var n := c as int;
    || n == 0x09 || n == 0x0A || n == 0x0B || n == 0x0C || n == 0x0D || n == 0x20
    || n == 0x85 || n == 0xA0 || n == 0x1680 || 0x2000 <= n <= 0x200A
    || n == 0x2028 || n == 0x2029 || n == 0x202F || n == 0x205F || n == 0x3000
  }

  /** Drops leading white space. */
  function TrimLeft(s: string): string
  {
    if |s| > 0 && IsSpace(s[0]) then TrimLeft(s[1..]) else s
  }

  /** Drops trailing white space. */
  function TrimRight(s: string): string
  {
    if |s| > 0 && IsSpace(s[|s| - 1]) then TrimRight(s[..|s| - 1]) else s
  }

  /** `bytes.TrimSpace`. */
  function TrimSpace(s: string): string
  {
    TrimRight(TrimLeft(s))
  }

  /** What `TrimLeft` drops is white space, and what it keeps starts with none. */
  lemma {:induction false} TrimLeftDropsSpace(s: string)
    ensures |TrimLeft(s)| <= |s| && TrimLeft(s) == s[|s| - |TrimLeft(s)|..]
    ensures forall k :: 0 <= k < |s| - |TrimLeft(s)| ==> IsSpace(s[k])
    ensures TrimLeft(s) != [] ==> !IsSpace(TrimLeft(s)[0])
    decreases |s|
  {
    if |s| > 0 && IsSpace(s[0]) {
      TrimLeftDropsSpace(s[1..]);
      forall k | 1 <= k < |s| - |TrimLeft(s)|
        ensures IsSpace(s[k])
      {
        assert s[k] == s[1..][k - 1];
      }
    }
  }

  /** What `TrimRight` drops is white space, and what it keeps ends with none. */
  lemma {:induction false} TrimRightDropsSpace(s: string)
    ensures |TrimRight(s)| <= |s| && TrimRight(s) == s[..|TrimRight(s)|]
    ensures forall k :: |TrimRight(s)| <= k < |s| ==> IsSpace(s[k])
    ensures TrimRight(s) != [] ==> !IsSpace(TrimRight(s)[|TrimRight(s)| - 1])
    decreases |s|
  {
    if |s| > 0 && IsSpace(s[|s| - 1]) {
      TrimRightDropsSpace(s[..|s| - 1]);
      assert s[..|s| - 1][..|TrimRight(s)|] == s[..|TrimRight(s)|];
    }
  }

  /** The trimmed message is the slice `s[i..j]` of the input: everything
      before `i` and from `j` on is white space, and the slice neither starts
      nor ends with white space. */
  lemma TrimSpaceSlice(s: string) returns (i: nat, j: nat)
    ensures i <= j <= |s| && TrimSpace(s) == s[i..j]
    ensures forall k :: 0 <= k < i ==> IsSpace(s[k])
    ensures forall k :: j <= k < |s| ==> IsSpace(s[k])
    ensures TrimSpace(s) != [] ==> !IsSpace(TrimSpace(s)[0]) && !IsSpace(TrimSpace(s)[|TrimSpace(s)| - 1])
  {
    var l := TrimLeft(s);
    var r := TrimRight(l);
    TrimLeftDropsSpace(s);
    TrimRightDropsSpace(l);
    i := |s| - |l|;
    j := i + |r|;
    assert r == s[i..][..|r|];
    forall k | j <= k < |s|
      ensures IsSpace(s[k])
    {
      assert s[k] == l[k - i];
    }
    if r != [] {
      assert r[0] == l[0];
    }
  }

  /** Trimming twice is trimming once. */
  lemma TrimSpaceIdempotent(s: string)
    ensures TrimSpace(TrimSpace(s)) == TrimSpace(s)
  {
    var t := TrimSpace(s);
    var i, j := TrimSpaceSlice(s);
    assert TrimLeft(t) == t;
    assert TrimRight(t) == t;
  }

  predicate HasSuffix(s: string, suffix: string)
  {
    |suffix| <= |s| && s[|s| - |suffix|..] == suffix
  }

  /** A frame is skipped when its file ends with one of the suffixes. */
  predicate Ignored(file: string, suffixes: seq<string>)
  {
    exists k :: 0 <= k < |suffixes| && HasSuffix(file, suffixes[k])
  }

  /** The first frame from `depth` on whose file is not ignored, or
      `UnknownCaller` when the stack runs out first. */
  function FirstUnignored(frames: seq<Location>, depth: nat, suffixes: seq<string>): Location
    decreases |frames| - depth
  {
    if depth >= |frames| then UnknownCaller
    else if Ignored(frames[depth].file, suffixes) then FirstUnignored(frames, depth + 1, suffixes)
    else frames[depth]
  }

  /** The frame found is the first one from `depth` that is not ignored. */
  lemma {:induction false} FirstUnignoredFinds(frames: seq<Location>, depth: nat, suffixes: seq<string>, k: nat)
    requires depth <= k < |frames|
    requires forall j :: depth <= j < k ==> Ignored(frames[j].file, suffixes)
    requires !Ignored(frames[k].file, suffixes)
    ensures FirstUnignored(frames, depth, suffixes) == frames[k]
    decreases k - depth
  {
    if depth < k {
      FirstUnignoredFinds(frames, depth + 1, suffixes, k);
    }
  }

  /** When every frame from `depth` on is ignored, the result is "???" and 0. */
  lemma {:induction false} FirstUnignoredExhausted(frames: seq<Location>, depth: nat, suffixes: seq<string>)
    requires forall j :: depth <= j < |frames| ==> Ignored(frames[j].file, suffixes)
    ensures FirstUnignored(frames, depth, suffixes) == UnknownCaller
    decreases |frames| - depth
  {
    if depth < |frames| {
      FirstUnignoredExhausted(frames, depth + 1, suffixes);
    }
  }

  /** `getCaller`: walks the stack from `callDepth + 1`, skipping frames whose
      file ends with an ignored suffix. */
  method GetCaller(callDepth: nat, suffixes: seq<string>, frames: seq<Location>) returns (file: string, line: int)
    ensures Location(file, line) == FirstUnignored(frames, callDepth + 1, suffixes)
  {
    var depth := callDepth + 1;
    while true
      invariant depth >= callDepth + 1
      invariant FirstUnignored(frames, depth, suffixes) == FirstUnignored(frames, callDepth + 1, suffixes)
      decreases |frames| - depth
    {
      if depth >= |frames| {
        file, line := UnknownCaller.file, UnknownCaller.line;
        return;
      }
      file, line := frames[depth].file, frames[depth].line;
      var skip := false;
      var k := 0;
      while k < |suffixes| && !skip
        invariant 0 <= k <= |suffixes|
        invariant skip <==> exists j :: 0 <= j < k && HasSuffix(file, suffixes[j])
        decreases |suffixes| - k
      {
        if HasSuffix(file, suffixes[k]) {
          skip := true;
        }
        k := k + 1;
      }
      if !skip {
        return;
      }
      depth := depth + 1;
    }
  }

  /** `getCallerIgnoringLogMulti`: `getCaller(callDepth + 1, ...)` with the
      five fixed suffixes. */
  method GetCallerIgnoringLogMulti(callDepth: nat, frames: seq<Location>) returns (file: string, line: int)
    ensures Location(file, line) == FirstUnignored(frames, callDepth + 2, IgnoredSuffixes)
  {
    file, line := GetCaller(callDepth + 1, IgnoredSuffixes, frames);
  }

  /** What `Fire` reads of a `logrus.Entry`; the time is already formatted as RFC 3339. */
  datatype Entry = Entry(level: Level, data: Fields, timestamp: string, message: string)

  /** The hook and the levels it was configured for. */
  class StklogHook {
    var logLevels: seq<Level>

    constructor ()
      ensures logLevels == []
    {
      logLevels := [];
    }

    /** `Levels`: the configured levels, or all of them when none were set;
        never empty. */
    function Levels(): (levels: seq<Level>)
      reads this
      ensures |levels| > 0
      ensures logLevels != [] ==> levels == logLevels
      ensures logLevels == [] ==> levels == AllLevels
    {
      if |logLevels| == 0 then AllLevels else logLevels
    }

    /** `SetLevel`: appends the levels not above `level`, keeping what was
        there (repeated calls accumulate). */
    method SetLevel(level: Level)
      modifies this
      ensures logLevels == old(logLevels) + Keep(AllLevels, level)
    {
      for i := 0 to |AllLevels|
        invariant logLevels == old(logLevels) + Keep(AllLevels[..i], level)
      {
        assert AllLevels[..i + 1][..i] == AllLevels[..i];
        var element := AllLevels[i];
        if WrapInt32(element) <= WrapInt32(level) {
          logLevels := logLevels + [element];
        }
      }
      assert AllLevels[..|AllLevels|] == AllLevels;
    }

    /** `Fire`: with no request id bound to the current goroutine it fails with
        `StackNotFound` and enqueues nothing; otherwise it enqueues the entry as
        a log of that request, at level + 1, with the trimmed message, the
        entry's data and time, and the first caller outside logrus.
        `frames` is the call stack as `getCaller` sees it. */
    method Fire(entry: Entry, dump: string, frames: seq<Location>, table: GidTable, ch: Channel)
      returns (err: Option<Error>)
      requires HasGID(dump)
      modifies ch
      ensures GetGID(dump) !in table.entries ==> err == Some(StackNotFound) && ch.sent == old(ch.sent)
      ensures GetGID(dump) in table.entries ==>
                var caller := FirstUnignored(frames, 3, IgnoredSuffixes);
                && err == None
                && ch.sent == old(ch.sent) + [MsgLog(LogMessage(LogLevel(entry.level), entry.data,
                                                               TrimSpace(entry.message), table.entries[GetGID(dump)],
                                                               entry.timestamp, caller.line, caller.file))]
    {
      var message := TrimSpace(entry.message);
      var requestID, ok := table.GetCurrentRequestID(dump);
      if !ok {
        return Some(StackNotFound);
      }
      var file, line := GetCallerIgnoringLogMulti(1, frames);
      ghost var caller := FirstUnignored(frames, 3, IgnoredSuffixes);
      assert file == caller.file && line == caller.line;
      var logMessage := LogMessage(LogLevel(entry.level), entry.data, message,
                                   requestID, entry.timestamp, line, file);
      ch.Send(MsgLog(logMessage));
      return None;
    }
  }

  /** The transport `start` picks. */
  datatype TransportChoice = ChooseHttp | ChooseNone

  /** HTTP when the "transport" option is missing, not a string, or "http";
      no transport for "tcp" or any other string. */
  function SelectTransport(options: Options): (c: TransportChoice)
    ensures c == ChooseHttp <==>
              (KeyTransport !in options || !options[KeyTransport].VString? || options[KeyTransport].s == "http")
  {
    match GetOption(options, KeyTransport)
    case (VString(s), true) => if s == "tcp" then ChooseNone else if s == "http" then ChooseHttp else ChooseNone
    case _ => ChooseHttp
  }

  /** The process-wide `running` flag and the transports whose loop was launched. */
  class HookProcess {
    var running: bool
    var launched: seq<TransportHttp.TransportHTTP>

    constructor ()
      ensures !running && launched == []
    {
      running, launched := false, [];
    }

    /** `start`: a no-op when a hook is running; otherwise it creates and
        initialises the selected transport, launches its loop and sets
        `running`, or, with no transport selected, leaves `running` false. */
    method Start(options: Options)
      modifies this
      ensures old(running) ==> running && launched == old(launched)
      ensures !old(running) && SelectTransport(options) == ChooseNone ==> !running && launched == old(launched)
      ensures !old(running) && SelectTransport(options) == ChooseHttp ==>
                && running
                && |launched| == |old(launched)| + 1 && launched[..|old(launched)|] == old(launched)
                && var t := launched[|launched| - 1];
                   && fresh(t) && t.options == options
                   && t.batchSize == TransportHttp.GetBatchSize(options)
                   && t.projectKey == GetProjectKey(options)
    {
      if running {
        return;
      }
      if SelectTransport(options) == ChooseNone {
        return;
      }
      var trans := new TransportHttp.TransportHTTP(options);
      trans.Init();
      launched := launched + [trans];
      running := true;
    }
  }

  /** `NewStklogHook`: starts the process-wide loop (see `Start`) and returns a
      hook with no level configured. */
  method NewStklogHook(process: HookProcess, options: Options) returns (hook: StklogHook)
    modifies process
    ensures fresh(hook) && hook.logLevels == []
    ensures process.running <==> old(process.running) || SelectTransport(options) == ChooseHttp
    ensures old(process.running) || SelectTransport(options) == ChooseNone ==> process.launched == old(process.launched)
    ensures !old(process.running) && SelectTransport(options) == ChooseHttp ==>
              && |process.launched| == |old(process.launched)| + 1
              && process.launched[..|old(process.launched)|] == old(process.launched)
              && var t := process.launched[|process.launched| - 1];
                 && fresh(t) && t.options == options
                 && t.batchSize == TransportHttp.GetBatchSize(options)
                 && t.projectKey == GetProjectKey(options)
  {
    process.Start(options);
    hook := new StklogHook();
  }

  /** Two hooks created in a fresh process launch at most one transport: one
      when HTTP is selected, none otherwise, since the second `start` finds
      the process running. */
  method TwoHooksLaunchOnce(options: Options) returns (launchedCount: nat)
    ensures launchedCount == if SelectTransport(options) == ChooseHttp then 1 else 0
  {
    var process := new HookProcess();
    var first := NewStklogHook(process, options);
    var second := NewStklogHook(process, options);
    launchedCount := |process.launched|;
  }
}
