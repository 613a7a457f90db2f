/**
 * The native tokenizer of src/cpp/simd_tokenizer.cpp: `tokenize_line` walks a
 * NUL-terminated byte string, skips delimiters, finds the end of each token
 * with a lane-wise comparison against an 8-byte pattern, and writes the 32-bit
 * FNV-1a hash of every token, reinterpreted as a signed `int`, into the
 * caller's array.
 *
 * The AVX2 loop compares 32 bytes at a time; here the same test is applied
 * one byte at a time. The byte at offset k from the token start is compared
 * with lane k mod 8 of the pattern, exactly as the vector comparison does.
 */
module Tokenizer {

  /** FNV-1a 32-bit offset basis (section 2 of the FNV IETF draft, draft-eastlake-fnv). */
  const OffsetBasis: bv32 := 0x811c9dc5
  /** FNV-1a 32-bit prime (same section). */
  const Prime: bv32 := 0x01000193

  /** The six bytes the skip loop passes over: ' ', '\t', '=', ':', ',', ';'. */
  predicate IsDelim(b: bv8) {
    b == 0x20 || b == 0x09 || b == 0x3d || b == 0x3a || b == 0x2c || b == 0x3b
  }

  /**
   * One period of the 32-lane comparison register: the six delimiters and two
   * zero lanes; lane j of the register holds `Pattern[j % 8]`.
   */
  const Pattern: seq<bv8> := [0x20, 0x09, 0x3d, 0x3a, 0x2c, 0x3b, 0x00, 0x00]

  // ---------------------------------------------------------------- FNV-1a

  /** One FNV-1a round: xor the byte in, then multiply by the prime modulo 2^32. */
  function Step(h: bv32, b: bv8): bv32 {
    (h ^ (b as bv32)) * Prime
  }

  /** FNV-1a continued from hash h over the bytes of s, in order. */
  function FnvFold(h: bv32, s: seq<bv8>): bv32
    decreases |s|
  {
    if s == [] then h else FnvFold(Step(h, s[0]), s[1..])
  }

  /** The 32-bit FNV-1a hash of s. */
  function Fnv1a(s: seq<bv8>): bv32 {
    FnvFold(OffsetBasis, s)
  }

  /** Hashing one more byte is one more xor-then-multiply step on the hash so far. */
  lemma {:induction false} FnvFoldSnoc(h: bv32, s: seq<bv8>, b: bv8)
    ensures FnvFold(h, s + [b]) == Step(FnvFold(h, s), b)
    decreases |s|
  {
    if s != [] {
      assert (s + [b])[1..] == s[1..] + [b];
      FnvFoldSnoc(Step(h, s[0]), s[1..], b);
    }
  }

  /** Test vectors of the FNV draft: the empty string hashes to the offset basis, "a" to 0xe40c292c. */
  lemma Fnv1aVectors()
    ensures Fnv1a([]) == OffsetBasis
    ensures Fnv1a([0x61]) == 0xe40c292c
  {
  }

  /** `fnv1a(s, len)`: the `for` loop over the `len` bytes that start at `start`. */
  method HashBytes(line: seq<bv8>, start: nat, len: nat) returns (h: bv32)
    requires start + len <= |line|
    ensures h == Fnv1a(line[start..start + len])
  {
    h := OffsetBasis;
    for i := 0 to len
      invariant h == Fnv1a(line[start..start + i])
    {
      assert line[start..start + i + 1] == line[start..start + i] + [line[start + i]];
      FnvFoldSnoc(OffsetBasis, line[start..start + i], line[start + i]);
      h := Step(h, line[start + i]);
    }
  }

  /** `static_cast<int>` of a `uint32_t`: the same 32 bits read as a two's-complement `int`. */
  function ToInt32(h: bv32): int {
    var x := h as int;
    if x < 0x8000_0000 then x else x - 0x1_0000_0000
  }

  /** The signed reading is in the `int` range and agrees with the hash modulo 2^32, so it loses nothing. */
  lemma ToInt32Wraps(h: bv32)
    ensures -0x8000_0000 <= ToInt32(h) < 0x8000_0000
    ensures ToInt32(h) % 0x1_0000_0000 == h as int
    ensures ToInt32(h) < 0 <==> h as int >= 0x8000_0000
  {
    Wrap32(h as int, ToInt32(h));
  }

  /** The arithmetic behind `ToInt32Wraps`, on plain integers. */
  lemma Wrap32(x: int, r: int)
    requires 0 <= x < 0x1_0000_0000
    requires r == if x < 0x8000_0000 then x else x - 0x1_0000_0000
    ensures r % 0x1_0000_0000 == x
  {
  }

  // ---------------------------------------------------------------- scanning

  /** The byte at index i; the spec functions read past the end of s as NUL. */
  function At(s: seq<bv8>, i: nat): bv8 {
    if i < |s| then s[i] else 0
  }

  /** Where the skip loop stops when it starts at p: the first NUL or non-delimiter byte. */
  function SkipDelims(s: seq<bv8>, p: nat): (q: nat)
    ensures p <= q
    ensures At(s, q) == 0 || !IsDelim(At(s, q))
    decreases |s| - p
  {
    if At(s, p) != 0 && IsDelim(At(s, p)) then SkipDelims(s, p + 1) else p
  }

  /** Everything the skip loop passes over is a delimiter, so it stops at the first NUL or non-delimiter. */
  lemma {:induction false} SkipDelimsSkipsDelims(s: seq<bv8>, p: nat)
    ensures forall j :: p <= j < SkipDelims(s, p) ==> At(s, j) != 0 && IsDelim(At(s, j))
    decreases |s| - p
  {
    if At(s, p) != 0 && IsDelim(At(s, p)) {
      SkipDelimsSkipsDelims(s, p + 1);
    }
  }

  /**
   * The lane rule of the vector scan: the byte at index q ends the token that
   * starts at `start` iff it is NUL or equals lane (q - start) mod 8 of the pattern.
   */
  predicate StopsAt(s: seq<bv8>, start: nat, q: nat)
    requires start <= q
  {
    At(s, q) == 0 || At(s, q) == Pattern[(q - start) % 8]
  }

  /** The end of the token that starts at `start`, searching from q on: the first index where the lane rule fires. */
  function ScanEnd(s: seq<bv8>, start: nat, q: nat): (e: nat)
    requires start <= q
    ensures q <= e && StopsAt(s, start, e)
    ensures q <= |s| ==> e <= |s|
    decreases |s| - q
  {
    if StopsAt(s, start, q) then q else ScanEnd(s, start, q + 1)
  }

  /**
   * The token ends at the FIRST index where the lane rule fires: a delimiter
   * at an offset whose lane holds a different byte does not end it.
   */
  lemma {:induction false} ScanEndIsFirst(s: seq<bv8>, start: nat, q: nat)
    requires start <= q
    ensures forall j :: q <= j < ScanEnd(s, start, q) ==> !StopsAt(s, start, j)
    decreases |s| - q
  {
    if !StopsAt(s, start, q) {
      ScanEndIsFirst(s, start, q + 1);
    }
  }

  /**
   * The end the skip set and the header comment describe: the first index
   * from q on holding NUL or any of the six delimiters, whatever its offset.
   */
  function IntendedScanEnd(s: seq<bv8>, q: nat): (e: nat)
    ensures q <= e && (At(s, e) == 0 || IsDelim(At(s, e)))
    ensures q <= |s| ==> e <= |s|
    decreases |s| - q
  {
    if At(s, q) == 0 || IsDelim(At(s, q)) then q else IntendedScanEnd(s, q + 1)
  }

  /** The intended scan stops at the FIRST NUL or delimiter: the bytes before it are neither. */
  lemma {:induction false} IntendedScanEndIsFirst(s: seq<bv8>, q: nat)
    ensures forall j :: q <= j < IntendedScanEnd(s, q) ==> At(s, j) != 0 && !IsDelim(At(s, j))
    decreases |s| - q
  {
    if At(s, q) != 0 && !IsDelim(At(s, q)) {
      IntendedScanEndIsFirst(s, q + 1);
    }
  }

  /**
   * The lane rule only ever ends a token later than intended, never earlier:
   * every byte it stops at is one the intended scan stops at too.
   */
  lemma {:induction false} ScanEndNotBeforeIntended(s: seq<bv8>, start: nat, q: nat)
    requires start <= q
    ensures IntendedScanEnd(s, q) <= ScanEnd(s, start, q)
    decreases |s| - q
  {
    if !StopsAt(s, start, q) && At(s, q) != 0 && !IsDelim(At(s, q)) {
      ScanEndNotBeforeIntended(s, start, q + 1);
    }
  }

  /** A stop byte is always NUL or one of the six delimiters. */
  lemma StopByteIsDelimOrNul(s: seq<bv8>, start: nat, q: nat)
    requires start <= q && StopsAt(s, start, q)
    ensures At(s, q) == 0 || IsDelim(At(s, q))
  {
  }

  /** A token is the half-open byte range [lo, hi) of the line. */
  datatype Span = Span(lo: nat, hi: nat)

  /** t is a token of s: non-empty, starting on a byte that is neither NUL nor a delimiter, and ending where the lane rule first fires. */
  predicate IsToken(s: seq<bv8>, t: Span) {
    t.lo < t.hi <= |s| && s[t.lo] != 0 && !IsDelim(s[t.lo]) && ScanEnd(s, t.lo, t.lo) == t.hi
  }

  /** Where scanning resumes after a token that ended at hi: one past the stop byte, unless it is NUL. */
  function Resume(s: seq<bv8>, hi: nat): nat {
    if At(s, hi) != 0 then hi + 1 else hi
  }

  /**
   * The tokens `tokenize_line` finds from index p on when it may still write
   * `budget` of them, in the order it writes them.
   */
  function Spans(s: seq<bv8>, p: nat, budget: nat): (r: seq<Span>)
    ensures |r| <= budget
    ensures At(s, p) == 0 ==> r == []
    decreases |s| - p
  {
    if budget == 0 || At(s, p) == 0 then []
    else
      var lo := SkipDelims(s, p);
      if At(s, lo) == 0 then []
      else
        assert !StopsAt(s, lo, lo);
        var hi := ScanEnd(s, lo, lo);
        [Span(lo, hi)] + Spans(s, Resume(s, hi), budget - 1)
  }

  /** Every span lies inside s, at or after p, and is non-empty. */
  lemma {:induction false} SpansInBounds(s: seq<bv8>, p: nat, b: nat)
    ensures forall i :: 0 <= i < |Spans(s, p, b)| ==> p <= Spans(s, p, b)[i].lo < Spans(s, p, b)[i].hi <= |s|
    decreases |s| - p
  {
    if b != 0 && At(s, p) != 0 {
      var lo := SkipDelims(s, p);
      if At(s, lo) != 0 {
        assert !StopsAt(s, lo, lo);
        var hi := ScanEnd(s, lo, lo);
        SpansInBounds(s, Resume(s, hi), b - 1);
        assert Spans(s, p, b) == [Span(lo, hi)] + Spans(s, Resume(s, hi), b - 1);
      }
    }
  }

  /** Every span is a token, and the first starts where the skip loop stops. */
  lemma {:induction false} SpansAreTokens(s: seq<bv8>, p: nat, b: nat)
    ensures forall i :: 0 <= i < |Spans(s, p, b)| ==> IsToken(s, Spans(s, p, b)[i])
    ensures |Spans(s, p, b)| > 0 ==> Spans(s, p, b)[0].lo == SkipDelims(s, p)
    decreases |s| - p
  {
    var r := Spans(s, p, b);
    if r != [] {
      var lo := SkipDelims(s, p);
      assert !StopsAt(s, lo, lo);
      var hi := ScanEnd(s, lo, lo);
      var rest := Spans(s, Resume(s, hi), b - 1);
      assert r == [Span(lo, hi)] + rest;
      SpansAreTokens(s, Resume(s, hi), b - 1);
    }
  }

  /**
   * Each later span starts where the skip loop stops after exactly one stop
   * byte past the previous token, so tokens come left to right and never overlap.
   */
  predicate InOrder(s: seq<bv8>, r: seq<Span>) {
    forall i :: 0 < i < |r| ==> Follows(s, r[i - 1], r[i])
  }

  /** Span y is the one the skip loop reaches one byte past the end of span x. */
  predicate Follows(s: seq<bv8>, x: Span, y: Span) {
    x.hi < y.lo && y.lo == SkipDelims(s, x.hi + 1)
  }

  /** Putting a span in front of an ordered list keeps it ordered when it links up with the head. */
  lemma InOrderCons(s: seq<bv8>, x: Span, rest: seq<Span>)
    requires InOrder(s, rest)
    requires rest != [] ==> Follows(s, x, rest[0])
    ensures InOrder(s, [x] + rest)
  {
    var r := [x] + rest;
    forall i | 1 < i < |r|
      ensures Follows(s, r[i - 1], r[i])
    {
      assert r[i] == rest[i - 1] && r[i - 1] == rest[i - 2];
    }
  }

  /** The spans come in the order `InOrder` describes. */
  lemma {:induction false} SpansInOrder(s: seq<bv8>, p: nat, b: nat)
    ensures InOrder(s, Spans(s, p, b))
    decreases |s| - p
  {
    var r := Spans(s, p, b);
    if r != [] {
      var lo := SkipDelims(s, p);
      assert !StopsAt(s, lo, lo);
      var hi := ScanEnd(s, lo, lo);
      var rest := Spans(s, Resume(s, hi), b - 1);
      assert r == [Span(lo, hi)] + rest;
      SpansInOrder(s, Resume(s, hi), b - 1);
      if rest != [] {
        assert At(s, hi) != 0;
        SpansAreTokens(s, Resume(s, hi), b - 1);
        assert Follows(s, Span(lo, hi), rest[0]);
      }
      InOrderCons(s, Span(lo, hi), rest);
    }
  }

  /** The number of tokens the caller allows: `max`, or none when `max <= 0`. */
  function Budget(max: int): nat {
    if max <= 0 then 0 else max
  }

  /** The value written to `out[]` for token t: its FNV-1a hash as a signed `int`. */
  function Id(s: seq<bv8>, t: Span): int
    requires t.lo <= t.hi <= |s|
  {
    ToInt32(Fnv1a(s[t.lo..t.hi]))
  }

  /** The ids `tokenize_line(s, out, max)` writes, in order. */
  function TokenIds(s: seq<bv8>, max: int): (ids: seq<int>)
    ensures |ids| == |Spans(s, 0, Budget(max))| <= Budget(max)
  {
    var sp := Spans(s, 0, Budget(max));
    SpansInBounds(s, 0, Budget(max));
    seq(|sp|, i requires 0 <= i < |sp| => Id(s, sp[i]))
  }

  /**
   * One round of the outer loop, seen from the list of all spans: when `k`
   * spans are done and scanning is at p, span k is the next skip-then-scan,
   * and the rest follow from where scanning resumes.
   */
  lemma SpansStep(s: seq<bv8>, p: nat, b: nat, all: seq<Span>, k: nat)
    requires b > 0 && At(s, p) != 0 && At(s, SkipDelims(s, p)) != 0
    requires k <= |all| && Spans(s, p, b) == all[k..]
    ensures var lo := SkipDelims(s, p); var hi := ScanEnd(s, lo, lo);
      k < |all| && all[k] == Span(lo, hi) && Spans(s, Resume(s, hi), b - 1) == all[k + 1..]
  {
    var lo := SkipDelims(s, p);
    assert !StopsAt(s, lo, lo);
    var hi := ScanEnd(s, lo, lo);
    assert all[k..] == [Span(lo, hi)] + Spans(s, Resume(s, hi), b - 1);
    assert all[k + 1..] == all[k..][1..];
  }

  /** The skip loop of `tokenize_line` (line 51), from index p0 on. */
  method SkipDelimiters(line: seq<bv8>, p0: nat, ghost nul: nat) returns (p: nat)
    requires p0 <= nul < |line| && line[nul] == 0
    ensures p == SkipDelims(line, p0) <= nul
  {
    p := p0;
    while line[p] != 0 && IsDelim(line[p])
      invariant p0 <= p <= nul
      invariant SkipDelims(line, p) == SkipDelims(line, p0)
      decreases nul - p
    {
      p := p + 1;
    }
  }

  /** The vector scan of `tokenize_line` (lines 57-71), one byte at a time, for the token that starts at `start`. */
  method ScanToken(line: seq<bv8>, start: nat, ghost nul: nat) returns (p: nat)
    requires start <= nul < |line| && line[nul] == 0
    ensures p == ScanEnd(line, start, start) <= nul
  {
    p := start;
    while !(line[p] == 0 || line[p] == Pattern[(p - start) % 8])
      invariant start <= p <= nul
      invariant ScanEnd(line, start, p) == ScanEnd(line, start, start)
      decreases nul - p
    {
      p := p + 1;
    }
  }

  /**
   * One round of the outer loop up to the hash (lines 51-71): skip the
   * delimiters from p, then scan the token. Seen from the list of all spans,
   * when k of them are done the token found is span k, and the rest follow
   * from where scanning resumes; when the skip reaches a NUL no span is left.
   */
  method NextToken(line: seq<bv8>, p: nat, ghost nul: nat, ghost b: nat, ghost all: seq<Span>, ghost k: nat)
    returns (lo: nat, hi: nat)
    requires p <= nul < |line| && line[nul] == 0 && line[p] != 0
    requires b > 0 && k <= |all| && Spans(line, p, b) == all[k..]
    ensures p <= lo <= hi <= nul
    ensures lo == SkipDelims(line, p)
    ensures line[lo] == 0 ==> Spans(line, p, b) == []
    ensures line[lo] != 0 ==> k < |all| && all[k] == Span(lo, hi) && Spans(line, Resume(line, hi), b - 1) == all[k + 1..]
  {
    lo := SkipDelimiters(line, p, nul);
    if line[lo] == 0 {
      hi := lo;
      return;
    }
    hi := ScanToken(line, lo, nul);
    SpansStep(line, p, b, all, k);
  }

  /**
   * `out[tok++] = (int32_t)fnv1a(start, len)` (lines 73-74): the hash of
   * line[lo..hi] goes to slot `tok`. When the first `tok` slots already hold
   * the first `tok` ids and the rest the initial contents o, and this hash is
   * id `tok`, then afterwards the first `tok + 1` slots hold ids.
   */
  method EmitToken(line: seq<bv8>, lo: nat, hi: nat, out: array<int>, tok: nat, ghost ids: seq<int>, ghost o: seq<int>)
    requires lo <= hi <= |line| && tok < out.Length && tok < |ids| && |o| == out.Length
    requires out[..] == ids[..tok] + o[tok..] && ids[tok] == Id(line, Span(lo, hi))
    modifies out
    ensures out[..] == ids[..tok + 1] + o[tok + 1..]
  {
    var h := HashBytes(line, lo, hi - lo);
    assert line[lo..lo + (hi - lo)] == line[lo..hi];
    out[tok] := ToInt32(h);
    PrefixStep(ids, o, tok);
  }

  /**
   * `tokenize_line(line, out, max)`: the outer `while` over tokens, the hash
   * and the write to `out[tok++]`. The line is read-only, so it is a value.
   */
  method TokenizeLine(line: seq<bv8>, out: array<int>, max: int, ghost nul: nat) returns (tok: int)
    requires nul < |line| && line[nul] == 0
    requires max <= out.Length
    modifies out
    ensures 0 <= tok <= Budget(max)
    ensures out[..tok] == TokenIds(line, max)
    ensures forall i :: tok <= i < out.Length ==> out[i] == old(out[i])
  {
    ghost var B := Budget(max);
    ghost var all := Spans(line, 0, B);
    ghost var ids := TokenIds(line, max);
    ghost var o := out[..];
    var p := 0;
    tok := 0;
    while line[p] != 0 && tok < max
      invariant 0 <= p <= nul
      invariant 0 <= tok <= |all| == |ids| <= B
      invariant Spans(line, p, B - tok) == all[tok..]
      invariant out[..] == ids[..tok] + o[tok..]
      decreases nul - p
    {
      var lo, hi := NextToken(line, p, nul, B - tok, all, tok);
      if line[lo] == 0 {
        p := lo;
        break;
      }
      TokenIdsAt(line, max, tok);
      EmitToken(line, lo, hi, out, tok, ids, o);
      tok := tok + 1;
      p := hi;
      // Advance past the delimiter.
      if line[p] != 0 {
        assert p != nul;
        p := p + 1;
      }
      assert p == Resume(line, hi);
    }
    SpansDone(line, p, B - tok);
    assert tok == |ids|;
    PrefixDone(ids, o, tok);
  }

  /** When all ids are written, the array holds them and then the untouched rest. */
  lemma PrefixDone(ids: seq<int>, o: seq<int>, k: nat)
    requires k == |ids| <= |o|
    ensures (ids[..k] + o[k..])[..k] == ids
    ensures forall i :: k <= i < |o| ==> (ids[..k] + o[k..])[i] == o[i]
  {
  }

  /** Id i of the line is the hash of span i. */
  lemma TokenIdsAt(s: seq<bv8>, max: int, i: nat)
    requires i < |Spans(s, 0, Budget(max))|
    ensures var t := Spans(s, 0, Budget(max))[i]; t.lo <= t.hi <= |s| && TokenIds(s, max)[i] == Id(s, t)
  {
    SpansInBounds(s, 0, Budget(max));
  }

  /** Writing id k over slot k of "first k ids, then the old contents" gives "first k + 1 ids, then the old contents". */
  lemma PrefixStep(ids: seq<int>, o: seq<int>, k: nat)
    requires k < |ids| && k < |o|
    ensures (ids[..k] + o[k..])[k := ids[k]] == ids[..k + 1] + o[k + 1..]
  {
    var lhs := (ids[..k] + o[k..])[k := ids[k]];
    var rhs := ids[..k + 1] + o[k + 1..];
    assert |lhs| == |rhs|;
    forall i | 0 <= i < |lhs|
      ensures lhs[i] == rhs[i]
    {
    }
  }

  /** Once the budget is spent, or only delimiters are left before a NUL, no span follows. */
  lemma SpansDone(s: seq<bv8>, p: nat, b: nat)
    requires b == 0 || At(s, p) == 0 || At(s, SkipDelims(s, p)) == 0
    ensures Spans(s, p, b) == []
  {
  }

  // ---------------------------------------------------------------- properties

  /** An empty line, or one made only of delimiters, yields no token. */
  lemma OnlyDelimitersNoTokens(c: seq<bv8>, max: int)
    requires forall j :: 0 <= j < |c| ==> IsDelim(c[j])
    ensures TokenIds(c + [0], max) == []
  {
    var s := c + [0];
    var q := SkipDelims(s, 0);
    if q < |c| {
      assert IsDelim(s[q]);
    } else if q > |c| {
      assert At(s, |c|) == 0;
    }
  }

  /** The skip loop never passes a NUL at index n. */
  lemma {:induction false} SkipAgree(s: seq<bv8>, t: seq<bv8>, n: nat, p: nat)
    requires n < |s| && n < |t| && s[n] == 0 && p <= n
    requires forall j :: 0 <= j <= n ==> s[j] == t[j]
    ensures SkipDelims(s, p) == SkipDelims(t, p) <= n
    decreases n - p
  {
    if p < n && s[p] != 0 && IsDelim(s[p]) {
      SkipAgree(s, t, n, p + 1);
    }
  }

  /** The scan never passes a NUL at index n. */
  lemma {:induction false} ScanAgree(s: seq<bv8>, t: seq<bv8>, n: nat, start: nat, q: nat)
    requires n < |s| && n < |t| && s[n] == 0 && start <= q <= n
    requires forall j :: 0 <= j <= n ==> s[j] == t[j]
    ensures ScanEnd(s, start, q) == ScanEnd(t, start, q) <= n
    decreases n - q
  {
    if !StopsAt(s, start, q) {
      assert q != n;
      ScanAgree(s, t, n, start, q + 1);
    }
  }

  /** No span reaches past a NUL at index n when scanning starts at or before it. */
  lemma {:induction false} SpansBeforeNul(s: seq<bv8>, n: nat, p: nat, b: nat)
    requires n < |s| && s[n] == 0 && p <= n
    ensures forall i :: 0 <= i < |Spans(s, p, b)| ==> Spans(s, p, b)[i].hi <= n
    decreases n - p
  {
    var r := Spans(s, p, b);
    if r != [] {
      SkipAgree(s, s, n, p);
      var lo := SkipDelims(s, p);
      ScanAgree(s, s, n, lo, lo);
      var hi := ScanEnd(s, lo, lo);
      var rest := Spans(s, Resume(s, hi), b - 1);
      assert r == [Span(lo, hi)] + rest;
      if rest != [] {
        assert hi < n;
        SpansBeforeNul(s, n, Resume(s, hi), b - 1);
        forall i | 0 < i < |r|
          ensures r[i].hi <= n
        {
          assert r[i] == rest[i - 1];
        }
      }
    }
  }

  /** The tokens depend only on the bytes up to a NUL: whatever follows it is never read. */
  lemma {:induction false} SpansAgree(s: seq<bv8>, t: seq<bv8>, n: nat, p: nat, b: nat)
    requires n < |s| && n < |t| && s[n] == 0 && p <= n
    requires forall j :: 0 <= j <= n ==> s[j] == t[j]
    ensures Spans(s, p, b) == Spans(t, p, b)
    decreases n - p
  {
    assert At(s, p) == At(t, p);
    if b != 0 && At(s, p) != 0 {
      SkipAgree(s, t, n, p);
      var lo := SkipDelims(s, p);
      assert At(s, lo) == At(t, lo);
      if At(s, lo) != 0 {
        ScanAgree(s, t, n, lo, lo);
        var hi := ScanEnd(s, lo, lo);
        assert Resume(s, hi) == Resume(t, hi);
        SpansAgree(s, t, n, Resume(s, hi), b - 1);
        assert Spans(s, p, b) == [Span(lo, hi)] + Spans(s, Resume(s, hi), b - 1);
        assert Spans(t, p, b) == [Span(lo, hi)] + Spans(t, Resume(s, hi), b - 1);
      }
    }
  }

  /** The ids depend only on the bytes up to a NUL. */
  lemma TokenIdsAgree(s: seq<bv8>, t: seq<bv8>, n: nat, max: int)
    requires n < |s| && n < |t| && s[n] == 0
    requires forall j :: 0 <= j <= n ==> s[j] == t[j]
    ensures TokenIds(s, max) == TokenIds(t, max)
  {
    SpansAgree(s, t, n, 0, Budget(max));
    SpansBeforeNul(s, n, 0, Budget(max));
    SpansInBounds(s, 0, Budget(max));
    SpansInBounds(t, 0, Budget(max));
    var sp := Spans(s, 0, Budget(max));
    forall i | 0 <= i < |sp|
      ensures Id(s, sp[i]) == Id(t, sp[i])
    {
      assert s[sp[i].lo..sp[i].hi] == t[sp[i].lo..sp[i].hi];
    }
  }

  /**
   * The lane rule at work: in "hello world" the space sits at offset 5, whose
   * lane holds ';', so the whole line is one token.
   */
  lemma HelloWorldIsOneToken()
    ensures TokenIds([0x68, 0x65, 0x6c, 0x6c, 0x6f, 0x20, 0x77, 0x6f, 0x72, 0x6c, 0x64, 0x00], 64)
      == [Id([0x68, 0x65, 0x6c, 0x6c, 0x6f, 0x20, 0x77, 0x6f, 0x72, 0x6c, 0x64, 0x00], Span(0, 11))]
  {
    var s: seq<bv8> := [0x68, 0x65, 0x6c, 0x6c, 0x6f, 0x20, 0x77, 0x6f, 0x72, 0x6c, 0x64, 0x00];
    HelloWorldIntendedSplit();
    assert SkipDelims(s, 0) == 0;
    assert Spans(s, 0, 64) == [Span(0, 11)];
  }

  /** On "hello world" the intended scan ends the first token at the space, index 5; the lane rule ends it at the NUL, index 11. */
  lemma HelloWorldIntendedSplit()
    ensures IntendedScanEnd([0x68, 0x65, 0x6c, 0x6c, 0x6f, 0x20, 0x77, 0x6f, 0x72, 0x6c, 0x64, 0x00], 0) == 5
    ensures ScanEnd([0x68, 0x65, 0x6c, 0x6c, 0x6f, 0x20, 0x77, 0x6f, 0x72, 0x6c, 0x64, 0x00], 0, 0) == 11
  {
    var s: seq<bv8> := [0x68, 0x65, 0x6c, 0x6c, 0x6f, 0x20, 0x77, 0x6f, 0x72, 0x6c, 0x64, 0x00];
    assert IntendedScanEnd(s, 5) == 5;
    assert ScanEnd(s, 0, 11) == 11;
    assert ScanEnd(s, 0, 8) == 11;
    assert ScanEnd(s, 0, 5) == 11;
    assert ScanEnd(s, 0, 2) == 11;
  }

  /** A space at offset 8, where lane 0 holds ' ', does end a token: "abcdefgh ij" is two tokens. */
  lemma SpaceAtLaneZeroSplits()
    ensures |TokenIds([0x61, 0x62, 0x63, 0x64, 0x65, 0x66, 0x67, 0x68, 0x20, 0x69, 0x6a, 0x00], 64)| == 2
  {
    var s: seq<bv8> := [0x61, 0x62, 0x63, 0x64, 0x65, 0x66, 0x67, 0x68, 0x20, 0x69, 0x6a, 0x00];
    assert SkipDelims(s, 0) == 0;
    assert ScanEnd(s, 0, 8) == 8;
    assert ScanEnd(s, 0, 0) == 8;
    assert SkipDelims(s, 9) == 9;
    assert ScanEnd(s, 9, 11) == 11;
    assert ScanEnd(s, 9, 9) == 11;
    assert Spans(s, 11, 62) == [];
    assert Spans(s, 0, 64) == [Span(0, 8), Span(9, 11)];
  }

  /** The id of "a" is 0xe40c292c read as a signed `int`: a negative number. */
  lemma IdOfAIsNegative()
    ensures TokenIds([0x61, 0x00], 64) == [-468965076]
  {
    var s: seq<bv8> := [0x61, 0x00];
    assert SkipDelims(s, 0) == 0;
    assert ScanEnd(s, 0, 0) == 1;
    assert Spans(s, 0, 64) == [Span(0, 1)];
    assert s[0..1] == [0x61];
    Fnv1aVectors();
    TokenIdsAt(s, 64, 0);
  }
}
