/** The `Stack` lifecycle of stack.go: creation binds the current goroutine to a
    fresh request id, setters change the record in place, `End` marks it pushed
    and hands a copy to the writer loop, and `Attach` forks a child from an
    ended stack. The runtime facts one call observes (the goroutine dump, the
    fresh uuid, the hostname lookup, the caller's location, the clock) are
    parameters. */
module Stacks {
  import opened Records
  import opened Mapping

  /** The fixed text of `STACK_NOT_ENDED`, up to its `%s#%d` placeholders. */
  const StackNotEndedLead: string := "Can't attach current stack.\nDid you forget to use End() on your stack ?\nCalled from "
  /** The text of `STACK_NOT_FOUND`. */
  const StackNotFoundText: string := "Can't find relevant stack for sending logs."
  /** Hostname used when the lookup fails. */
  const FallbackHostname: string := "localhost"

  /** The two errors stack.go defines. */
  datatype Error = StackNotEnded(file: string, line: int) | StackNotFound

  predicate IsDigit(c: char)
  {
    '0' <= c <= '9'
  }

  predicate AllDigits(s: string)
  {
    forall k :: 0 <= k < |s| ==> IsDigit(s[k])
  }

  /** Decimal digits of `n`, as `%d` prints a non-negative number: no
      leading zero unless `n` is zero. */
  function FormatNat(n: nat): (s: string)
    ensures |s| >= 1 && AllDigits(s)
    ensures s[0] == '0' <==> n == 0
    ensures n == 0 ==> s == "0"
  {
    var d := ('0' as int + n % 10) as char;
    if n < 10 then [d] else FormatNat(n / 10) + [d]
  }

  /** `%d` of an int: a minus sign for negative values, then the digits. */
  function FormatInt(i: int): string
  {
    if i < 0 then "-" + FormatNat(-i) else FormatNat(i)
  }

  /** Digits as `%d` writes them: at least one, and no leading zero unless
      the text is "0". */
  predicate Decimal(s: string)
  {
    |s| >= 1 && AllDigits(s) && (s[0] == '0' ==> |s| == 1)
  }

  function ParseNat(s: string): nat
    requires AllDigits(s)
  {
    if s == [] then 0 else 10 * ParseNat(s[..|s| - 1]) + (s[|s| - 1] as int - '0' as int)
  }

  /** The integer a text denotes when it is written as `%d` writes one: an
      optional minus sign before a non-zero number, then its decimal digits.
      Any other text denotes none. */
  function ParseInt(s: string): Option<int>
  {
    if |s| > 1 && s[0] == '-' && Decimal(s[1..]) && s[1..] != "0" then Some(0 - ParseNat(s[1..]) as int)
    else if Decimal(s) then Some(ParseNat(s))
    else None
  }

  lemma {:induction false} ParseFormatNat(n: nat)
    ensures ParseNat(FormatNat(n)) == n
  {
    var s := FormatNat(n);
    if n >= 10 {
      ParseFormatNat(n / 10);
      assert s[..|s| - 1] == FormatNat(n / 10);
    }
  }

  /** The line number printed by `%d` reads back as the same number. */
  lemma FormatIntRoundTrip(i: int)
    ensures ParseInt(FormatInt(i)) == Some(i)
  {
    var n: nat := if i < 0 then -i else i;
    var d := FormatNat(n);
    assert Decimal(d);
    ParseFormatNat(n);
    if i < 0 {
      var t := "-" + d;
      assert t[1..] == d && t[0] == '-' && |t| > 1;
      assert d != "0" by { assert d[0] != '0'; }
      assert FormatInt(i) == t;
    } else {
      assert d[0] != '-';
      assert FormatInt(i) == d;
    }
  }

  /** A decimal text whose first digit is not zero denotes a positive number. */
  lemma {:induction false} DecimalPositive(s: string)
    requires AllDigits(s) && |s| >= 1 && s[0] != '0'
    ensures ParseNat(s) >= 1
  {
    if |s| > 1 {
      var p := s[..|s| - 1];
      DecimalPositive(p);
    }
  }

  /** `%d` writes every decimal text back as itself. */
  lemma {:induction false} FormatParseNat(s: string)
    requires Decimal(s)
    ensures FormatNat(ParseNat(s)) == s
  {
    var n := ParseNat(s);
    var d := s[|s| - 1];
    if |s| > 1 {
      var p := s[..|s| - 1];
      assert Decimal(p);
      DecimalPositive(p);
      FormatParseNat(p);
      assert n / 10 == ParseNat(p) && n % 10 == d as int - '0' as int;
      assert s == p + [d];
    } else {
      assert s == [d];
    }
  }

  /** Only the text `%d` writes for an integer parses to it, so a parsed line
      number fixes the text it came from. */
  lemma ParseIntOnlyFormatted(s: string, i: int)
    requires ParseInt(s) == Some(i)
    ensures s == FormatInt(i)
  {
    if |s| > 1 && s[0] == '-' && Decimal(s[1..]) && s[1..] != "0" {
      FormatParseNat(s[1..]);
      DecimalPositive(s[1..]);
      assert s == "-" + s[1..];
    } else {
      FormatParseNat(s);
    }
  }

  /** The message of an error, as `fmt.Errorf` / `errors.New` build it. */
  function ErrorText(e: Error): (msg: string)
    ensures e.StackNotFound? ==> msg == StackNotFoundText
    ensures e.StackNotEnded? ==>
              StackNotEndedLead + e.file + "#" <= msg
              && ParseInt(msg[|StackNotEndedLead + e.file + "#"|..]) == Some(e.line)
  {
    match e
    case StackNotFound => StackNotFoundText
    case StackNotEnded(file, line) =>
      var head := StackNotEndedLead + file + "#";
      var msg := head + FormatInt(line);
      assert msg[|head|..] == FormatInt(line);
      FormatIntRoundTrip(line);
      msg
  }

  /** The hostname a new stack records: the looked-up one, or "localhost". */
  function ResolvedHostname(lookup: Option<string>): (host: string)
    ensures lookup.None? ==> host == FallbackHostname
    ensures lookup.Some? ==> host == lookup.value
  {
    match lookup
    case None => FallbackHostname
    case Some(h) => h
  }

  /** A logical block of logs. */
  class Stack {
    var parentRequestID: string
    var name: string
    var extra: Fields
    var requestID: string
    var timestamp: string
    var line: int
    var file: string
    var hostname: string
    var pushed: bool

    /** The value copy of this stack (what `*stack` copies). */
    function Snapshot(): StackRecord
      reads this
    {
      StackRecord(parentRequestID, name, extra, requestID, timestamp, line, file, hostname, pushed)
    }

    /** The struct literal of `CreateStack`. */
    constructor (requestID: string, timestamp: string, caller: Location, hostname: string)
      ensures Snapshot() == StackRecord("", "", map[], requestID, timestamp, caller.line, caller.file, hostname, false)
    {
      this.parentRequestID := "";
      this.name := "";
      this.extra := map[];
      this.requestID := requestID;
      this.timestamp := timestamp;
      this.line := caller.line;
      this.file := caller.file;
      this.hostname := hostname;
      this.pushed := false;
    }

    /** Overrides the request id and rebinds the current goroutine to it. */
    method SetRequestID(table: GidTable, dump: string, requestID: string) returns (self: Stack)
      requires HasGID(dump)
      modifies this, table
      ensures self == this
      ensures Snapshot() == old(Snapshot()).(requestID := requestID)
      ensures table.entries == old(table.entries)[GetGID(dump) := requestID]
    {
      this.requestID := requestID;
      table.entries := table.entries[GetGID(dump) := requestID];
      self := this;
    }

    /** Replaces the extra fields wholesale. */
    method SetFields(fields: Fields) returns (self: Stack)
      modifies this
      ensures self == this
      ensures Snapshot() == old(Snapshot()).(extra := fields)
    {
      extra := fields;
      self := this;
    }

    /** Sets the name. */
    method SetName(name: string) returns (self: Stack)
      modifies this
      ensures self == this
      ensures Snapshot() == old(Snapshot()).(name := name)
    {
      this.name := name;
      self := this;
    }

    /** Marks the stack pushed and hands it to the writer loop. Nothing guards
        a second call. */
    method End(ch: Channel)
      modifies this, ch
      ensures Snapshot() == old(Snapshot()).(pushed := true)
      ensures ch.sent == old(ch.sent) + [MsgStack(Snapshot())]
    {
      pushed := true;
      ch.Send(MsgStack(Snapshot()));
    }

    /** Forks a child stack from an ended one. On a stack that was not ended it
        fails with `StackNotEnded` at the caller's location and unbinds the
        current goroutine. `caller` is the location of Attach's caller,
        `createSite` what `CreateStack` sees as its caller (the call inside Attach). */
    method Attach(table: GidTable, dump: string, caller: Location, newID: string,
                  hostLookup: Option<string>, createSite: Location, now: string)
      returns (child: Stack?, err: Option<Error>)
      requires HasGID(dump)
      modifies table
      ensures unchanged(this)
      ensures !pushed ==>
                && child == null
                && err == Some(StackNotEnded(caller.file, caller.line))
                && table.entries == old(table.entries) - {GetGID(dump)}
      ensures pushed ==>
                && err == None
                && child != null && fresh(child)
                && child.Snapshot() == StackRecord(requestID, "", map[], newID, now, createSite.line,
                                                   createSite.file, ResolvedHostname(hostLookup), false)
                && table.entries == old(table.entries)[GetGID(dump) := newID]
    {
      if !pushed {
        table.entries := table.entries - {GetGID(dump)};
        return null, Some(StackNotEnded(caller.file, caller.line));
      }
      var stack := CreateStack(table, dump, newID, hostLookup, createSite, now);
      stack.parentRequestID := requestID;
      return stack, None;
    }
  }

  /** Creates an open stack with a fresh request id and binds the current
      goroutine to that id. */
  method CreateStack(table: GidTable, dump: string, newID: string, hostLookup: Option<string>,
                     caller: Location, now: string) returns (s: Stack)
    requires HasGID(dump)
    modifies table
    ensures fresh(s)
    ensures s.Snapshot() == StackRecord("", "", map[], newID, now, caller.line, caller.file,
                                        ResolvedHostname(hostLookup), false)
    ensures table.entries == old(table.entries)[GetGID(dump) := newID]
  {
    table.entries := table.entries[GetGID(dump) := newID];
    var host := ResolvedHostname(hostLookup);
    s := new Stack(newID, now, caller, host);
  }

  /** `End` has no idempotence guard: ending a stack twice enqueues it twice. */
  method EndTwice(s: Stack, ch: Channel)
    modifies s, ch
    ensures s.pushed
    ensures ch.sent == old(ch.sent) + [MsgStack(s.Snapshot()), MsgStack(s.Snapshot())]
  {
    s.End(ch);
    s.End(ch);
  }
}
