/**
 * `collections.deque(maxlen=n)`: the bounded double-ended queue that the
 * collector, the isolation-forest window and the alert buffer all use.
 * `append` on a full deque discards the element at the left end.
 */
module Deque {

  /** The last min(|s|, n) elements of s, in order. */
  function LastN<T>(s: seq<T>, n: nat): (r: seq<T>)
    ensures |r| == if |s| < n then |s| else n
  {
    if |s| <= n then s else s[|s| - n..]
  }

  /**
   * `q.append(x)` on a deque whose maxlen is `maxlen`: the oldest element is
   * dropped when the deque is already full, and nothing else changes.
   */
  function Append<T>(q: seq<T>, x: T, maxlen: nat): (r: seq<T>)
    requires 0 < maxlen && |q| <= maxlen
    ensures |r| <= maxlen
    ensures r == LastN(q + [x], maxlen)
    ensures r[|r| - 1] == x
  {
    if |q| == maxlen then q[1..] + [x] else q + [x]
  }

  /**
   * A deque that has seen the elements h, one append at a time, holds the last
   * `maxlen` of them; appending one more keeps it so.
   */
  lemma AppendKeepsLastN<T>(h: seq<T>, x: T, maxlen: nat)
    requires 0 < maxlen
    ensures Append(LastN(h, maxlen), x, maxlen) == LastN(h + [x], maxlen)
  {
    if |h| >= maxlen {
      assert LastN(h, maxlen)[1..] + [x] == (h + [x])[|h| + 1 - maxlen..];
    }
  }

  /** Below capacity, `append` keeps every element. */
  lemma AppendBelowCapacity<T>(q: seq<T>, x: T, maxlen: nat)
    requires |q| < maxlen
    ensures Append(q, x, maxlen) == q + [x]
  {
  }
}
