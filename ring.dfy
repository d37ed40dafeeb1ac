/** Index arithmetic over a ring buffer. The allocation starts at index 0 (the
    `origin` of the source); valid bytes run from a start index up to
    `bufferEnd` and may continue at the origin. Pointers of the source are
    indices into a `seq<Byte>` here. */
module Ring {

  /** One byte of the connection buffer (a C `char`, read as unsigned). */
  newtype Byte = b: int | 0 <= b < 256

  /** The number of bytes from `from` to `to` along the ring: the source's
      `change` of a successful parse (src/flt_json.c), which is also the length
      of the span between the two positions. */
  function Distance(from: nat, to: nat, bufferEnd: nat): (d: int)
    ensures from <= to ==> from + d == to
    ensures to < from <= bufferEnd ==> 0 <= d && from + d == to + bufferEnd
  {
    if to < from then (bufferEnd - from) + to else to - from
  }

  /** The bytes from `from` up to (not including) `to`: contiguous when
      `from <= to`, otherwise up to `bufferEnd` and then on from the origin. */
  function Span(mem: seq<Byte>, from: nat, to: nat, bufferEnd: nat): (s: seq<Byte>)
    requires from <= bufferEnd && to <= bufferEnd <= |mem|
    ensures |s| == Distance(from, to, bufferEnd)
  {
    if from <= to then mem[from..to] else mem[from..bufferEnd] + mem[..to]
  }

  /** The stream size computed by the constructor of WrappedMemoryStream. */
  function StreamSize(start: nat, parseEnd: nat, bufferEnd: nat): (size: int)
    ensures start != parseEnd ==> size == Distance(start, parseEnd, bufferEnd)
    ensures start == parseEnd ==> size == bufferEnd
  {
    if parseEnd > start then parseEnd - start else (bufferEnd - start) + parseEnd
  }

  /** The read position after one non-final step from `p`: it goes back to the
      origin only when it reaches `bufferEnd` without being the end of data. */
  function Next(p: nat, parseEnd: nat, bufferEnd: nat): (q: nat)
    ensures q == p + 1 || (q == 0 && p + 1 == bufferEnd && p + 1 != parseEnd)
    ensures p < bufferEnd ==> q < bufferEnd || q == parseEnd
  {
    if p + 1 != parseEnd && p + 1 == bufferEnd then 0 else p + 1
  }

  /** The read position `k` steps after `start`, in closed form. */
  function Advance(start: nat, k: nat, parseEnd: nat, bufferEnd: nat): (p: nat)
    ensures p == start + k || p + bufferEnd == start + k
    ensures start < bufferEnd && parseEnd <= bufferEnd && k <= Distance(start, parseEnd, bufferEnd) ==>
              p <= bufferEnd
  {
    if start + k < bufferEnd || (start + k == bufferEnd && parseEnd == bufferEnd) then start + k
    else start + k - bufferEnd
  }

  /** Where `k` steps from `start` can land while at most the whole span to
      `parseEnd` is walked: never beyond the allocation, at `parseEnd`
      exactly after the whole span, and strictly inside the ring before. */
  lemma AdvanceRange(start: nat, k: nat, parseEnd: nat, bufferEnd: nat)
    requires start < bufferEnd && parseEnd <= bufferEnd
    requires k <= Distance(start, parseEnd, bufferEnd)
    ensures Advance(start, k, parseEnd, bufferEnd) <= bufferEnd
    ensures k == Distance(start, parseEnd, bufferEnd) ==> Advance(start, k, parseEnd, bufferEnd) == parseEnd
    ensures k < Distance(start, parseEnd, bufferEnd) ==>
              Advance(start, k, parseEnd, bufferEnd) != parseEnd && Advance(start, k, parseEnd, bufferEnd) < bufferEnd
  {
  }

  /** Taking one more step is one application of `Next`. */
  lemma AdvanceStep(start: nat, k: nat, parseEnd: nat, bufferEnd: nat)
    requires start < bufferEnd && parseEnd <= bufferEnd
    requires k < Distance(start, parseEnd, bufferEnd)
    ensures Advance(start, k + 1, parseEnd, bufferEnd) == Next(Advance(start, k, parseEnd, bufferEnd), parseEnd, bufferEnd)
  {
  }

  /** The driver's wrap-aware `change` recovers the number of steps taken. */
  lemma DistanceAdvance(start: nat, k: nat, parseEnd: nat, bufferEnd: nat)
    requires start < bufferEnd && parseEnd <= bufferEnd
    requires k <= Distance(start, parseEnd, bufferEnd)
    ensures Distance(start, Advance(start, k, parseEnd, bufferEnd), bufferEnd) == k
  {
  }

  /** One step of the cursor drops exactly the first byte of the span that is
      left to read, and that byte is the one under the cursor. */
  lemma SpanStep(mem: seq<Byte>, p: nat, parseEnd: nat, bufferEnd: nat)
    requires p < bufferEnd <= |mem| && parseEnd <= bufferEnd && p != parseEnd
    ensures Next(p, parseEnd, bufferEnd) <= bufferEnd
    ensures Span(mem, p, parseEnd, bufferEnd) != []
    ensures Span(mem, p, parseEnd, bufferEnd)[0] == mem[p]
    ensures Span(mem, Next(p, parseEnd, bufferEnd), parseEnd, bufferEnd) == Span(mem, p, parseEnd, bufferEnd)[1..]
  {
    var s := Span(mem, p, parseEnd, bufferEnd);
    if p < parseEnd {
      assert s == mem[p..parseEnd];
    } else if p + 1 == bufferEnd {
      assert s == [mem[p]] + mem[..parseEnd];
    } else {
      assert s == mem[p..bufferEnd] + mem[..parseEnd];
      assert mem[p..bufferEnd] == [mem[p]] + mem[p + 1..bufferEnd];
    }
  }
}
