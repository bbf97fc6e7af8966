/** The process-wide table from goroutine id to request id (mapping.go), and
    the parser that extracts the goroutine id from the runtime's stack dump. */
module Mapping {

  /** Prefix of the first line of a goroutine stack dump. */
  const GoroutinePrefix: string := "goroutine "
  /** Size of the buffer `getGID` hands to the runtime. */
  const DumpBufferSize: nat := 64

  predicate HasPrefix(s: string, prefix: string)
  {
    |prefix| <= |s| && s[..|prefix|] == prefix
  }

  /** `bytes.TrimPrefix`: drops `prefix` when `s` starts with it. */
  function TrimPrefix(s: string, prefix: string): (r: string)
    ensures HasPrefix(s, prefix) ==> prefix + r == s
    ensures !HasPrefix(s, prefix) ==> r == s
  {
    if HasPrefix(s, prefix) then
      assert s == s[..|prefix|] + s[|prefix|..];
      s[|prefix|..]
    else s
  }

  /** `bytes.IndexByte`: the index of the first `c` in `s`, or -1. */
  function IndexByte(s: string, c: char): (i: int)
    ensures -1 <= i < |s|
    ensures i == -1 <==> c !in s
    ensures 0 <= i ==> s[i] == c && c !in s[..i]
  {
    if |s| == 0 then -1
    else if s[0] == c then 0
    else
      var j := IndexByte(s[1..], c);
      if j == -1 then -1
      else
        assert s[..j + 1] == [s[0]] + s[1..][..j];
        j + 1
  }

  /** What the runtime writes into the 64-byte buffer: the dump, cut to 64 bytes. */
  function Captured(dump: string): (b: string)
    ensures |b| <= DumpBufferSize && b <= dump
    ensures |b| == if |dump| < DumpBufferSize then |dump| else DumpBufferSize
    ensures |dump| <= DumpBufferSize ==> b == dump
  {
    if |dump| <= DumpBufferSize then dump else dump[..DumpBufferSize]
  }

  /** The captured dump with a leading "goroutine " removed. */
  function Trimmed(dump: string): string
  {
    TrimPrefix(Captured(dump), GoroutinePrefix)
  }

  /** `getGID` only succeeds when a space follows within the captured bytes;
      otherwise `IndexByte` yields -1 and the slice expression panics. */
  predicate HasGID(dump: string)
  {
    ' ' in Trimmed(dump)
  }

  /** `getGID`: the bytes of the trimmed dump before its first space. */
  function GetGID(dump: string): (gid: string)
    requires HasGID(dump)
    ensures ' ' !in gid
    ensures gid + " " <= Trimmed(dump)
  {
    var b := Trimmed(dump);
    var i := IndexByte(b, ' ');
    assert b[..i] + " " == b[..i + 1] && b[..i + 1] <= b;
    b[..i]
  }

  /** On the usual first line of a dump the id is the number after "goroutine ". */
  lemma GetGIDOfRunningGoroutine()
    ensures HasGID("goroutine 42 [running]:")
    ensures GetGID("goroutine 42 [running]:") == "42"
  {
    var dump := "goroutine 42 [running]:";
    assert Captured(dump) == dump;
    assert HasPrefix(dump, GoroutinePrefix);
    var b := Trimmed(dump);
    assert b == dump[10..];
    assert "42 " <= b;
    GidBeforeFirstSpace(b, "42");
  }

  /** Two dumps that agree up to the first space after the prefix give the same id. */
  lemma GetGIDDeterminedByHead(d1: string, d2: string, gid: string)
    requires HasGID(d1) && HasGID(d2)
    requires ' ' !in gid
    requires gid + " " <= Trimmed(d1) && gid + " " <= Trimmed(d2)
    ensures GetGID(d1) == gid && GetGID(d2) == gid
  {
    GidBeforeFirstSpace(Trimmed(d1), gid);
    GidBeforeFirstSpace(Trimmed(d2), gid);
  }

  /** A space-free prefix followed by a space is the text before the first space. */
  lemma GidBeforeFirstSpace(b: string, g: string)
    requires ' ' !in g && g + " " <= b
    ensures IndexByte(b, ' ') == |g|
    ensures g == b[..IndexByte(b, ' ')]
  {
    TextBeforeFirst(b, g, ' ');
  }

  /** A prefix free of `c` and followed by `c` ends where the first `c` is. */
  lemma TextBeforeFirst(b: string, g: string, c: char)
    requires c !in g && g + [c] <= b
    ensures IndexByte(b, c) == |g|
    ensures g == b[..|g|]
  {
    assert (g + [c])[|g|] == c;
    assert b[|g|] == c;
    assert g == b[..|g|];
  }

  /** The global `mapping` table: goroutine id to request id. */
  class GidTable {
    var entries: map<string, string>

    constructor ()
      ensures entries == map[]
    {
      entries := map[];
    }

    /** `GetCurrentRequestID`: the request id bound to the current goroutine. */
    method GetCurrentRequestID(dump: string) returns (value: string, ok: bool)
      requires HasGID(dump)
      ensures ok <==> GetGID(dump) in entries
      ensures ok ==> value == entries[GetGID(dump)]
      ensures !ok ==> value == ""
    {
      var gid := GetGID(dump);
      if gid in entries {
        value, ok := entries[gid], true;
      } else {
        value, ok := "", false;
      }
    }
  }
}
