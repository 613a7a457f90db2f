/**
 * The collector sidecar of src/python/collector.py: `TokenizerBridge` hands
 * each log line to the native tokenizer through two buffers it allocates once
 * and reuses, and `main` queues the token lists in a bounded deque that it
 * drains to the anomaly engine in batches of 200.
 *
 * Lines arrive here as the bytes of their UTF-8 encoding; the file tailer
 * becomes a finite input sequence and the gRPC `send` a ghost log.
 */
module Collector {
  import Deque
  import opened Tokenizer

  /** `MAX_IDS`: the size of the output buffer and the `max` passed to the tokenizer. */
  const MaxIds: nat := 64
  /** The size of the reused input buffer, `char[4096]`. */
  const BufSize: nat := 4096
  /** At most this many bytes of a line are kept, leaving room for the NUL. */
  const MaxLine: nat := 4095
  /** `deque(maxlen=1000)` in `main`. */
  const QueueCap: nat := 1000
  /** The back-pressure threshold: the queue is drained once it holds this many lists. */
  const FlushAt: nat := 200

  /** `line.encode("utf-8")[:4095]`: the first min(|line|, 4095) bytes, the rest dropped. */
  function Truncate(line: seq<bv8>): (r: seq<bv8>)
    ensures |r| == if |line| < MaxLine then |line| else MaxLine
    ensures r == line[..|r|]
  {
    if |line| <= MaxLine then line else line[..MaxLine]
  }

  /**
   * `[self._out[i] for i in range(n)]`: the first n entries of the output
   * buffer, in order; `range(n)` is empty when n is negative.
   */
  function ReadIds(out: seq<int>, n: int): (r: seq<int>)
    requires n <= |out|
    ensures |r| == if n < 0 then 0 else n
    ensures forall i :: 0 <= i < |r| ==> r[i] == out[i]
  {
    if n <= 0 then [] else out[..n]
  }

  /** The token ids of a line: what the tokenizer finds in its truncated, NUL-terminated bytes. */
  function LineIds(line: seq<bv8>): seq<int> {
    TokenIds(Truncate(line) + [0], MaxIds)
  }

  /** A line yields at most `MAX_IDS` ids. */
  lemma LineIdsBound(line: seq<bv8>)
    ensures |LineIds(line)| <= MaxIds
  {
  }

  /**
   * A NUL byte inside a line ends it for the tokenizer: the bytes after it
   * never reach a token.
   */
  lemma NulEndsLine(a: seq<bv8>, b: seq<bv8>)
    requires |a| < MaxLine
    ensures LineIds(a + [0] + b) == LineIds(a)
  {
    var s := Truncate(a + [0] + b) + [0];
    var t := Truncate(a) + [0];
    assert Truncate(a) == a;
    forall j | 0 <= j <= |a|
      ensures s[j] == t[j]
    {
      assert s[j] == (a + [0] + b)[j];
    }
    TokenIdsAgree(s, t, |a|, MaxIds);
  }

  /** The token lists of a sequence of lines, in order. */
  function AllIds(lines: seq<seq<bv8>>): (r: seq<seq<int>>)
    ensures |r| == |lines|
    ensures forall i :: 0 <= i < |lines| ==> r[i] == LineIds(lines[i])
  {
    seq(|lines|, i requires 0 <= i < |lines| => LineIds(lines[i]))
  }

  /** `TokenizerBridge`: the two cffi buffers, allocated once and reused for every line. */
  class TokenizerBridge {
    /** `self._buf = ffi.new("char[]", 4096)`. */
    const buf: array<bv8>
    /** `self._out = ffi.new("int[]", MAX_IDS)`. */
    const out: array<int>

    predicate Valid()
      reads this
    {
      buf.Length == BufSize && out.Length == MaxIds
    }

    /** `__init__`: both buffers are fresh and have their fixed sizes. */
    constructor()
      ensures Valid() && fresh(buf) && fresh(out)
    {
      buf := new bv8[BufSize];
      out := new int[MaxIds];
    }

    /**
     * `tokenize(line)`: copy the truncated bytes into the buffer, write the
     * NUL right after them (index at most 4095, so always inside the buffer),
     * run the tokenizer and read back its ids. Whatever earlier lines left in
     * either buffer has no effect on the result; past the NUL and past the
     * last id, both buffers keep what they held.
     */
    method Tokenize(line: seq<bv8>) returns (ids: seq<int>)
      requires Valid()
      modifies buf, out
      ensures Valid()
      ensures ids == LineIds(line)
      ensures |ids| <= MaxIds
      ensures buf[..|Truncate(line)|] == Truncate(line) && buf[|Truncate(line)|] == 0
      ensures forall i :: |Truncate(line)| < i < BufSize ==> buf[i] == old(buf[i])
      ensures out[..|ids|] == ids
      ensures forall i :: |ids| <= i < MaxIds ==> out[i] == old(out[i])
    {
      var encoded := Truncate(line);
      forall i | 0 <= i < |encoded| {
        buf[i] := encoded[i];
      }
      buf[|encoded|] := 0;
      ghost var bytes := buf[..];
      forall j | 0 <= j <= |encoded|
        ensures bytes[j] == (encoded + [0])[j]
      {
      }
      assert bytes[..|encoded|] == encoded;
      var n := TokenizeLine(buf[..], out, MaxIds, |encoded|);
      ids := ReadIds(out[..], n);
      TokenIdsAgree(bytes, encoded + [0], |encoded|, MaxIds);
      assert out[..|ids|] == out[..n];
    }
  }

  /**
   * The loop of `main` over the lines the tailer yields: tokenize, append to
   * the deque, and once it holds 200 lists drain it front to back into `send`.
   * Returns the deque after the last line and the ghost log of sent lists.
   */
  method Ingest(bridge: TokenizerBridge, lines: seq<seq<bv8>>) returns (buffer: seq<seq<int>>, ghost sent: seq<seq<int>>)
    requires bridge.Valid()
    modifies bridge.buf, bridge.out
    ensures sent + buffer == AllIds(lines)
    ensures |sent| % FlushAt == 0
    ensures |buffer| == |lines| % FlushAt
  {
    buffer := [];
    sent := [];
    for k := 0 to |lines|
      invariant bridge.Valid()
      invariant sent + buffer == AllIds(lines[..k])
      invariant |buffer| == k % FlushAt && |sent| % FlushAt == 0
    {
      CountStep(k, |sent|);
      buffer, sent := Enqueue(bridge, lines[k], buffer, sent);
      AllIdsSnoc(lines, k);
    }
    assert lines[..|lines|] == lines;
  }

  /**
   * One iteration of the loop of `main`: tokenize the line, append its ids
   * to the deque, and drain the deque into `send` once it holds 200 lists.
   */
  method Enqueue(bridge: TokenizerBridge, line: seq<bv8>, buffer: seq<seq<int>>, ghost sent: seq<seq<int>>)
    returns (buffer': seq<seq<int>>, ghost sent': seq<seq<int>>)
    requires bridge.Valid() && |buffer| < FlushAt
    modifies bridge.buf, bridge.out
    ensures bridge.Valid()
    ensures sent' + buffer' == sent + buffer + [LineIds(line)]
    ensures |buffer| + 1 < FlushAt ==> sent' == sent && |buffer'| == |buffer| + 1
    ensures |buffer| + 1 == FlushAt ==> sent' == sent + buffer + [LineIds(line)] && buffer' == []
  {
    var ids := bridge.Tokenize(line);
    // The deque never reaches its capacity, so `append` evicts nothing.
    buffer' := Deque.Append(buffer, ids, QueueCap);
    Deque.AppendBelowCapacity(buffer, ids, QueueCap);
    sent' := sent;
    if |buffer'| >= FlushAt {
      buffer', sent' := Drain(buffer', sent');
    }
  }

  /**
   * `while buf: send(buf.popleft())`: every queued list goes to `send`,
   * front to back, and the queue ends empty.
   */
  method Drain(queue: seq<seq<int>>, ghost sent: seq<seq<int>>) returns (rest: seq<seq<int>>, ghost sent': seq<seq<int>>)
    ensures rest == []
    ensures sent' == sent + queue
  {
    rest, sent' := queue, sent;
    while rest != []
      invariant sent' + rest == sent + queue
      decreases |rest|
    {
      sent' := sent' + [rest[0]];
      rest := rest[1..];
    }
  }

  /** The queue length k % 200 goes up by one per line and wraps to 0 at a flush; the sent count stays a multiple of 200. */
  lemma CountStep(k: nat, sent: nat)
    requires sent % FlushAt == 0
    ensures (k + 1) % FlushAt == if k % FlushAt + 1 == FlushAt then 0 else k % FlushAt + 1
    ensures (sent + FlushAt) % FlushAt == 0
  {
  }

  /** The token lists of one more line are those of the earlier lines and then its own. */
  lemma AllIdsSnoc(lines: seq<seq<bv8>>, k: nat)
    requires k < |lines|
    ensures AllIds(lines[..k + 1]) == AllIds(lines[..k]) + [LineIds(lines[k])]
  {
    assert lines[..k + 1][k] == lines[k];
  }
}
