/** The two newline strategies of src/flt_json.c: a byte loop and a loop over
    `memchr`. Both are proved to compute the same two functions of the
    available bytes, so they agree on every buffer. */
module NewlineScan {
  import opened Ring
  import opened Wrappers
  import opened ByteStream
  import opened Channels

  /** One past the last newline among the first `k` bytes of `s`, or 0 when
      they hold none: how many leading bytes end on a record delimiter. */
  function NewlineEnd(s: seq<Byte>, k: nat): (r: nat)
    requires k <= |s|
    ensures r <= k
  {
    if k == 0 then 0
    else if s[k - 1] == NL then k
    else NewlineEnd(s, k - 1)
  }

  /** The number of newlines among the first `k` bytes of `s`. */
  function NewlineCount(s: seq<Byte>, k: nat): (n: nat)
    requires k <= |s|
    ensures n <= k
  {
    if k == 0 then 0
    else NewlineCount(s, k - 1) + (if s[k - 1] == NL then 1 else 0)
  }

  /** NewlineEnd is one past the last newline: the byte before it is a
      newline, and none follows it. */
  lemma {:induction false} NewlineEndIsLast(s: seq<Byte>, k: nat)
    requires k <= |s|
    ensures NewlineEnd(s, k) > 0 ==> s[NewlineEnd(s, k) - 1] == NL
    ensures forall j :: NewlineEnd(s, k) <= j < k ==> s[j] != NL
  {
    if k > 0 && s[k - 1] != NL {
      NewlineEndIsLast(s, k - 1);
    }
  }

  /** Bytes without a newline change neither function. */
  lemma {:induction false} NoNewlineExtends(s: seq<Byte>, o: nat, m: nat)
    requires o <= m <= |s|
    requires forall j :: o <= j < m ==> s[j] != NL
    ensures NewlineEnd(s, m) == NewlineEnd(s, o)
    ensures NewlineCount(s, m) == NewlineCount(s, o)
  {
    if o < m {
      NoNewlineExtends(s, o, m - 1);
    }
  }

  /** Every newline lies in the part that is let through, and that part is
      empty exactly when there is no newline. */
  lemma {:induction false} NewlinesBeforeEnd(s: seq<Byte>, k: nat)
    requires k <= |s|
    ensures NewlineCount(s, NewlineEnd(s, k)) == NewlineCount(s, k)
    ensures NewlineEnd(s, k) == 0 <==> NewlineCount(s, k) == 0
  {
    var r := NewlineEnd(s, k);
    NewlineEndIsLast(s, k);
    NoNewlineExtends(s, r, k);
    if r > 0 {
      assert NewlineCount(s, r) == NewlineCount(s, r - 1) + 1;
    }
  }

  /** memchr: the first index in [from, from + len) holding `b`. */
  function MemChr(mem: seq<Byte>, from: nat, len: nat, b: Byte): (r: Option<nat>)
    requires from + len <= |mem|
    ensures r.Some? ==> from <= r.value < from + len && mem[r.value] == b
    decreases len
  {
    if len == 0 then None
    else if mem[from] == b then Some(from)
    else MemChr(mem, from + 1, len - 1, b)
  }

  /** memchr finds the first occurrence: none of the bytes it passes over,
      and none at all when it finds nothing, is `b`. */
  lemma {:induction false} MemChrFirst(mem: seq<Byte>, from: nat, len: nat, b: Byte)
    requires from + len <= |mem|
    ensures var r := MemChr(mem, from, len, b);
            forall j :: from <= j < (if r.Some? then r.value else from + len) ==> mem[j] != b
    decreases len
  {
    if len > 0 && mem[from] != b {
      MemChrFirst(mem, from + 1, len - 1, b);
    }
  }

  /** Contiguous bytes from offset `o` to `m` that are not newlines change
      neither function. */
  lemma ContiguousRun(ch: Channel, o: nat, m: nat)
    requires ch.Valid() && o <= m <= ch.left
    requires forall j :: ch.start + o <= j < ch.start + m ==> ch.mem[j] != NL
    ensures NewlineEnd(ch.Data(), m) == NewlineEnd(ch.Data(), o)
    ensures NewlineCount(ch.Data(), m) == NewlineCount(ch.Data(), o)
  {
    var d := ch.Data();
    forall j | o <= j < m
      ensures d[j] != NL
    {
      DataAt(ch, j);
      assert ch.mem[ch.start + j] != NL;
    }
    NoNewlineExtends(d, o, m);
  }

  /** Wrapped bytes from index `o` to `m` that are not newlines change
      neither function. */
  lemma WrappedRun(ch: Channel, o: nat, m: nat)
    requires ch.Valid() && o <= m <= ch.avail - ch.left
    requires forall j :: o <= j < m ==> ch.mem[j] != NL
    ensures NewlineEnd(ch.Data(), ch.left + m) == NewlineEnd(ch.Data(), ch.left + o)
    ensures NewlineCount(ch.Data(), ch.left + m) == NewlineCount(ch.Data(), ch.left + o)
  {
    var d := ch.Data();
    forall j | ch.left + o <= j < ch.left + m
      ensures d[j] != NL
    {
      DataAt(ch, j);
      assert ch.mem[j - ch.left] != NL;
    }
    NoNewlineExtends(d, ch.left + o, ch.left + m);
  }

  /** One `memchr` over the rest of the contiguous run, from offset `o`:
      where it finds a newline, the prefix up to it ends a record; where it
      finds none, the rest of the run adds nothing. */
  lemma FindContiguous(ch: Channel, o: nat)
    requires ch.Valid() && o <= ch.left
    ensures var f := MemChr(ch.mem, ch.start + o, ch.left - o, NL);
            (f.Some? ==>
               NewlineEnd(ch.Data(), f.value - ch.start + 1) == f.value - ch.start + 1 &&
               NewlineCount(ch.Data(), f.value - ch.start + 1) == NewlineCount(ch.Data(), o) + 1) &&
            (f.None? ==>
               NewlineEnd(ch.Data(), ch.left) == NewlineEnd(ch.Data(), o) &&
               NewlineCount(ch.Data(), ch.left) == NewlineCount(ch.Data(), o))
  {
    var d := ch.Data();
    var f := MemChr(ch.mem, ch.start + o, ch.left - o, NL);
    MemChrFirst(ch.mem, ch.start + o, ch.left - o, NL);
    if f.Some? {
      var m := f.value - ch.start;
      ContiguousRun(ch, o, m);
      DataAt(ch, m);
      assert d[m] == NL;
      assert NewlineCount(d, m + 1) == NewlineCount(d, m) + 1;
    } else {
      ContiguousRun(ch, o, ch.left);
    }
  }

  /** One `memchr` over the rest of the wrapped part, from index `o`. */
  lemma FindWrapped(ch: Channel, o: nat)
    requires ch.Valid() && o <= ch.avail - ch.left
    ensures var f := MemChr(ch.mem, o, ch.avail - ch.left - o, NL);
            (f.Some? ==>
               NewlineEnd(ch.Data(), ch.left + f.value + 1) == ch.left + f.value + 1 &&
               NewlineCount(ch.Data(), ch.left + f.value + 1) == NewlineCount(ch.Data(), ch.left + o) + 1) &&
            (f.None? ==>
               NewlineEnd(ch.Data(), ch.avail) == NewlineEnd(ch.Data(), ch.left + o) &&
               NewlineCount(ch.Data(), ch.avail) == NewlineCount(ch.Data(), ch.left + o))
  {
    var d := ch.Data();
    var f := MemChr(ch.mem, o, ch.avail - ch.left - o, NL);
    MemChrFirst(ch.mem, o, ch.avail - ch.left - o, NL);
    if f.Some? {
      var m := f.value;
      WrappedRun(ch, o, m);
      DataAt(ch, ch.left + m);
      assert d[ch.left + m] == NL;
      assert NewlineCount(d, ch.left + m + 1) == NewlineCount(d, ch.left + m) + 1;
    } else {
      WrappedRun(ch, o, ch.avail - ch.left);
    }
  }

  /** The scan of json_tcp_data_newline: every byte of the contiguous run,
      then every wrapped byte at offset `left + i`. */
  method ScanNewlines(ch: Channel) returns (ret: nat, parsedRecords: nat)
    requires ch.Valid()
    ensures ret == NewlineEnd(ch.Data(), ch.avail)
    ensures parsedRecords == NewlineCount(ch.Data(), ch.avail)
  {
    if ch.avail == 0 {
      return 0, 0;
    }
    ghost var d := ch.Data();
    var left := ch.left;
    parsedRecords := 0;
    ret := 0;
    var start := ch.start;
    for i := 0 to left
      invariant ret == NewlineEnd(d, i)
      invariant parsedRecords == NewlineCount(d, i)
    {
      DataAt(ch, i);
      if ch.mem[start + i] == NL {
        ret := i + 1;
        parsedRecords := parsedRecords + 1;
      }
    }
    if left < ch.avail {
      start := 0;
      for i := 0 to ch.avail - left
        invariant ret == NewlineEnd(d, left + i)
        invariant parsedRecords == NewlineCount(d, left + i)
      {
        DataAt(ch, left + i);
        if ch.mem[start + i] == NL {
          ret := left + i + 1;
          parsedRecords := parsedRecords + 1;
        }
      }
    }
  }

  /** The scan of json_tcp_data_newline_simd: `memchr` from just after each
      newline found, first over the contiguous run, then over the wrapped
      part. */
  method ScanNewlinesSimd(ch: Channel) returns (ret: nat, parsedRecords: nat)
    requires ch.Valid()
    ensures ret == NewlineEnd(ch.Data(), ch.avail)
    ensures parsedRecords == NewlineCount(ch.Data(), ch.avail)
  {
    if ch.avail == 0 {
      return 0, 0;
    }
    var wrapRemainder;
    ret, parsedRecords, wrapRemainder := SimdContiguous(ch);
    if ch.left < ch.avail {
      ret, parsedRecords := SimdWrapped(ch, ret, parsedRecords, wrapRemainder);
    }
  }

  /** The first `memchr` loop, over the contiguous run. It also returns the
      bytes after the last newline of the run (`wrap_remainder`). */
  method SimdContiguous(ch: Channel) returns (ret: nat, parsedRecords: nat, wrapRemainder: nat)
    requires ch.Valid()
    ensures ret == NewlineEnd(ch.Data(), ch.left)
    ensures parsedRecords == NewlineCount(ch.Data(), ch.left)
    ensures ret + wrapRemainder == ch.left
  {
    ghost var d := ch.Data();
    parsedRecords := 0;
    ret := 0;
    var start := ch.start;
    var left := ch.left;
    var end := start + left;
    while start < end
      invariant ch.start <= start <= end == ch.start + ch.left && left == end - start
      invariant ret == start - ch.start
      invariant ret == NewlineEnd(d, ret)
      invariant parsedRecords == NewlineCount(d, ret)
      decreases end - start
    {
      FindContiguous(ch, ret);
      var found := MemChr(ch.mem, start, left, NL);
      if found.Some? {
        var simdRet := found.value + 1;
        ret := ret + (simdRet - start);
        parsedRecords := parsedRecords + 1;
        left := left - (simdRet - start);
        start := simdRet;
      } else {
        break;
      }
    }
    wrapRemainder := end - start;
  }

  /** The second `memchr` loop, over the wrapped part. The bytes left over
      after the last contiguous newline are added once, to the first
      wrapped record. */
  method SimdWrapped(ch: Channel, ret0: nat, parsed0: nat, wrapRemainder0: nat)
    returns (ret: nat, parsedRecords: nat)
    requires ch.Valid() && ch.left < ch.avail
    requires ret0 == NewlineEnd(ch.Data(), ch.left)
    requires parsed0 == NewlineCount(ch.Data(), ch.left)
    requires ret0 + wrapRemainder0 == ch.left
    ensures ret == NewlineEnd(ch.Data(), ch.avail)
    ensures parsedRecords == NewlineCount(ch.Data(), ch.avail)
  {
    ghost var d := ch.Data();
    ret, parsedRecords := ret0, parsed0;
    var wrapRemainder := wrapRemainder0;
    var start := 0;
    var left := ch.avail - ch.left;
    var end := start + left;
    while start != end
      invariant 0 <= start <= end == ch.avail - ch.left && left == end - start
      invariant ret == NewlineEnd(d, ch.left + start)
      invariant parsedRecords == NewlineCount(d, ch.left + start)
      invariant start == 0 ==> ret + wrapRemainder == ch.left
      invariant start > 0 ==> wrapRemainder == 0 && ret == ch.left + start
      decreases end - start
    {
      FindWrapped(ch, start);
      var found := MemChr(ch.mem, start, left, NL);
      if found.Some? {
        var simdRet := found.value + 1;
        var change := simdRet - start;
        if wrapRemainder != 0 {
          change := change + wrapRemainder;
          wrapRemainder := 0;
        }
        ret := ret + change;
        parsedRecords := parsedRecords + 1;
        left := left - (simdRet - start);
        start := simdRet;
      } else {
        break;
      }
    }
  }
}
