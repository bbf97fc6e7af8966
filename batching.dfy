/** Slicing a drained sequence into bounded batches, and the requests that
    carry them. Both HTTP senders use the loop
    `for i := 0; i < length; i += min(size, length-i)`, modelled once here. */
module Batching {
  import opened Records

  /** The batches of `s` of at most `size` elements each, front to back. */
  function Chunks<T>(s: seq<T>, size: nat): seq<seq<T>>
    requires size >= 1
    decreases |s|
  {
    if |s| == 0 then []
    else
      var n := Min(size, |s|);
      [s[..n]] + Chunks(s[n..], size)
  }

  /** Concatenation of a sequence of sequences. */
  function Flatten<T>(ss: seq<seq<T>>): seq<T>
  {
    if ss == [] then [] else ss[0] + Flatten(ss[1..])
  }

  /** Division rounded up. */
  function CeilDiv(a: nat, b: nat): nat
    requires b >= 1
  {
    (a + b - 1) / b
  }

  /** The batches put back together give the drained sequence, in order. */
  lemma {:induction false} ChunksLossless<T>(s: seq<T>, size: nat)
    requires size >= 1
    ensures Flatten(Chunks(s, size)) == s
    decreases |s|
  {
    if |s| > 0 {
      var n := Min(size, |s|);
      ChunksLossless(s[n..], size);
      assert Chunks(s, size)[1..] == Chunks(s[n..], size);
      assert s == s[..n] + s[n..];
    }
  }

  /** Every batch is non-empty and holds at most `size` elements. */
  lemma {:induction false} ChunksBounded<T>(s: seq<T>, size: nat)
    requires size >= 1
    ensures forall k :: 0 <= k < |Chunks(s, size)| ==> 1 <= |Chunks(s, size)[k]| <= size
    decreases |s|
  {
    if |s| > 0 {
      var n := Min(size, |s|);
      ChunksBounded(s[n..], size);
      var cs := Chunks(s, size);
      forall k | 0 <= k < |cs|
        ensures 1 <= |cs[k]| <= size
      {
        if k > 0 {
          assert cs[k] == Chunks(s[n..], size)[k - 1];
        }
      }
    }
  }

  lemma MulAtLeast(k: int, b: int)
    requires k >= 1 && b >= 1
    ensures k * b >= b
  {
    var j := k - 1;
    assert k * b == j * b + b;
  }

  /** Euclidean division is determined by quotient and remainder. */
  lemma DivUnique(x: int, b: int, q: int, r: int)
    requires b >= 1 && 0 <= r < b && x == q * b + r
    ensures x / b == q
  {
    var q2, r2 := x / b, x % b;
    assert x == q2 * b + r2 && 0 <= r2 < b;
    var d := q2 - q;
    assert d * b == r - r2;
    if d >= 1 { MulAtLeast(d, b); }
    else if d <= -1 { MulAtLeast(-d, b); }
  }

  lemma DivStep(x: nat, b: nat)
    requires b >= 1
    ensures (x + b) / b == x / b + 1
  {
    var q, r := x / b, x % b;
    assert x == q * b + r;
    assert x + b == (q + 1) * b + r;
    DivUnique(x + b, b, q + 1, r);
  }

  lemma CeilDivSmall(a: nat, b: nat)
    requires 1 <= a <= b
    ensures CeilDiv(a, b) == 1
  {
    DivUnique(a + b - 1, b, 1, a - 1);
  }

  lemma CeilDivStep(a: nat, b: nat)
    requires 1 <= b < a
    ensures CeilDiv(a, b) == CeilDiv(a - b, b) + 1
  {
    DivStep(a - 1, b);
  }

  /** There are exactly ceil(|s| / size) batches. */
  lemma {:induction false} ChunksCount<T>(s: seq<T>, size: nat)
    requires size >= 1
    ensures |Chunks(s, size)| == CeilDiv(|s|, size)
    decreases |s|
  {
    if |s| == 0 {
      DivUnique(size - 1, size, 0, size - 1);
    } else if |s| <= size {
      assert Chunks(s[|s|..], size) == [];
      CeilDivSmall(|s|, size);
    } else {
      var rest := s[size..];
      assert |Chunks(s, size)| == 1 + |Chunks(rest, size)|;
      ChunksCount(rest, size);
      CeilDivStep(|s|, size);
    }
  }

  /** The imperative slicing loop of the senders; it yields exactly `Chunks`. */
  method SliceBatches<T>(s: seq<T>, size: nat) returns (batches: seq<seq<T>>)
    requires size >= 1
    ensures batches == Chunks(s, size)
  {
    var length := |s|;
    var i := 0;
    batches := [];
    while i < length
      invariant 0 <= i <= length
      invariant batches + Chunks(s[i..], size) == Chunks(s, size)
      decreases length - i
    {
      var n := Min(size, length - i);
      ChunksAt(s, i, size);
      batches := batches + [s[i..Min(size + i, length)]];
      i := i + n;
    }
    assert s[length..] == [];
  }

  /** The batches from index `i` on: the one starting at `i`, then those after it. */
  lemma ChunksAt<T>(s: seq<T>, i: nat, size: nat)
    requires size >= 1 && i < |s|
    ensures Chunks(s[i..], size) == [s[i..Min(size + i, |s|)]] + Chunks(s[i + Min(size, |s| - i)..], size)
  {
    var n := Min(size, |s| - i);
    assert s[i..][..n] == s[i..Min(size + i, |s|)];
    assert s[i..][n..] == s[i + n..];
  }

  /** One POST per batch to `url`, in order. */
  function Posts(url: string, projectKey: string, bodies: seq<Body>): (rs: seq<Request>)
    ensures |rs| == |bodies|
    ensures forall k :: 0 <= k < |rs| ==> rs[k] == Post(url, projectKey, bodies[k])
  {
    seq(|bodies|, k requires 0 <= k < |bodies| => Post(url, projectKey, bodies[k]))
  }

  function StackBodies(batches: seq<seq<StackRecord>>): (bs: seq<Body>)
    ensures |bs| == |batches|
    ensures forall k :: 0 <= k < |bs| ==> bs[k] == StackBatch(batches[k])
  {
    seq(|batches|, k requires 0 <= k < |batches| => StackBatch(batches[k]))
  }

  function LogBodies(batches: seq<seq<LogMessage>>): (bs: seq<Body>)
    ensures |bs| == |batches|
    ensures forall k :: 0 <= k < |bs| ==> bs[k] == LogBatch(batches[k])
  {
    seq(|batches|, k requires 0 <= k < |batches| => LogBatch(batches[k]))
  }

  /** The requests of one drain-and-send: the stack batches to `stacksUrl`,
      then the log batches to `logsUrl`. */
  function BatchPosts(stacksUrl: string, logsUrl: string, projectKey: string,
                      stacks: seq<StackRecord>, logs: seq<LogMessage>, size: nat): seq<Request>
    requires size >= 1
  {
    Posts(stacksUrl, projectKey, StackBodies(Chunks(stacks, size)))
      + Posts(logsUrl, projectKey, LogBodies(Chunks(logs, size)))
  }

  /** The stacks carried by a sequence of requests, in request order. */
  function SentStacks(rs: seq<Request>): seq<StackRecord>
  {
    if rs == [] then []
    else (if rs[0].body.StackBatch? then rs[0].body.stacks else []) + SentStacks(rs[1..])
  }

  /** The logs carried by a sequence of requests, in request order. */
  function SentLogs(rs: seq<Request>): seq<LogMessage>
  {
    if rs == [] then []
    else (if rs[0].body.LogBatch? then rs[0].body.logs else []) + SentLogs(rs[1..])
  }

  lemma {:induction false} SentAppend(a: seq<Request>, b: seq<Request>)
    ensures SentStacks(a + b) == SentStacks(a) + SentStacks(b)
    ensures SentLogs(a + b) == SentLogs(a) + SentLogs(b)
    decreases |a|
  {
    if a != [] {
      var head := a[0].body;
      assert (a + b)[0] == a[0];
      assert (a + b)[1..] == a[1..] + b;
      SentAppend(a[1..], b);
      assert SentStacks(a + b) == (if head.StackBatch? then head.stacks else []) + SentStacks(a[1..] + b);
      assert SentLogs(a + b) == (if head.LogBatch? then head.logs else []) + SentLogs(a[1..] + b);
    } else {
      assert a + b == b;
    }
  }

  lemma {:induction false} SentOfStackPosts(url: string, key: string, batches: seq<seq<StackRecord>>)
    ensures SentStacks(Posts(url, key, StackBodies(batches))) == Flatten(batches)
    ensures SentLogs(Posts(url, key, StackBodies(batches))) == []
    decreases |batches|
  {
    if batches != [] {
      var rs := Posts(url, key, StackBodies(batches));
      assert rs[1..] == Posts(url, key, StackBodies(batches[1..]));
      SentOfStackPosts(url, key, batches[1..]);
    }
  }

  lemma {:induction false} SentOfLogPosts(url: string, key: string, batches: seq<seq<LogMessage>>)
    ensures SentLogs(Posts(url, key, LogBodies(batches))) == Flatten(batches)
    ensures SentStacks(Posts(url, key, LogBodies(batches))) == []
    decreases |batches|
  {
    if batches != [] {
      var rs := Posts(url, key, LogBodies(batches));
      assert rs[1..] == Posts(url, key, LogBodies(batches[1..]));
      SentOfLogPosts(url, key, batches[1..]);
    }
  }

  /** One drain-and-send neither loses nor duplicates a record: the stacks and
      the logs carried by its requests are exactly the drained ones, in order. */
  lemma BatchPostsLossless(stacksUrl: string, logsUrl: string, key: string,
                           stacks: seq<StackRecord>, logs: seq<LogMessage>, size: nat)
    requires size >= 1
    ensures SentStacks(BatchPosts(stacksUrl, logsUrl, key, stacks, logs, size)) == stacks
    ensures SentLogs(BatchPosts(stacksUrl, logsUrl, key, stacks, logs, size)) == logs
  {
    var a := Posts(stacksUrl, key, StackBodies(Chunks(stacks, size)));
    var b := Posts(logsUrl, key, LogBodies(Chunks(logs, size)));
    SentAppend(a, b);
    SentOfStackPosts(stacksUrl, key, Chunks(stacks, size));
    SentOfLogPosts(logsUrl, key, Chunks(logs, size));
    ChunksLossless(stacks, size);
    ChunksLossless(logs, size);
  }

  /** The shape of one drain-and-send: ceil(|stacks|/size) stack requests to
      `stacksUrl` come first, then ceil(|logs|/size) log requests to `logsUrl`;
      every body is non-empty and at most `size` long; an empty sequence
      yields no request. */
  lemma BatchPostsShape(stacksUrl: string, logsUrl: string, key: string,
                        stacks: seq<StackRecord>, logs: seq<LogMessage>, size: nat)
    requires size >= 1
    ensures var rs := BatchPosts(stacksUrl, logsUrl, key, stacks, logs, size);
            var ns := CeilDiv(|stacks|, size);
            && |rs| == ns + CeilDiv(|logs|, size)
            && (forall k :: 0 <= k < ns ==>
                  rs[k].url == stacksUrl && rs[k].projectKey == key && rs[k].body.StackBatch?
                  && 1 <= |rs[k].body.stacks| <= size)
            && (forall k :: ns <= k < |rs| ==>
                  rs[k].url == logsUrl && rs[k].projectKey == key && rs[k].body.LogBatch?
                  && 1 <= |rs[k].body.logs| <= size)
  {
    ChunksCount(stacks, size);
    ChunksCount(logs, size);
    ChunksBounded(stacks, size);
    ChunksBounded(logs, size);
  }

  /** Nothing buffered means nothing sent. */
  lemma BatchPostsEmpty(stacksUrl: string, logsUrl: string, key: string, size: nat)
    requires size >= 1
    ensures BatchPosts(stacksUrl, logsUrl, key, [], [], size) == []
  {
    var noStacks: seq<StackRecord> := [];
    var noLogs: seq<LogMessage> := [];
    assert Chunks(noStacks, size) == [];
    assert Chunks(noLogs, size) == [];
  }
}
