/** The rapidjson input stream over the proxy's ring buffer, the UTF-8 reader
    put on top of it, and the two parse entry points (json/jsonwrapper.cpp). */
module JsonWrapper {
  import opened Ring
  import opened Wrappers
  import opened ByteStream

  /** json_passed_t of json/jsonwrapper.h. */
  datatype JsonPassed = JsonFail | JsonPass

  /** A read cursor over the bytes from `parseOriginalStart` to `parseEnd`
      along the ring [0, bufferEnd). At the end of the stream it still shows
      the byte at `parseEnd` once, without moving. */
  class WrappedMemoryStream {
    const mem: seq<Byte>
    const parseOriginalStart: nat
    const parseEnd: nat
    const bufferEnd: nat
    const size: int
    var parseStart: nat
    var count: nat
    var nextChar: Byte

    /** All bytes of the stream, from the start it was built with. */
    ghost function Whole(): seq<Byte>
      reads this
      requires parseOriginalStart < bufferEnd <= |mem| && parseEnd <= bufferEnd
    {
      Span(mem, parseOriginalStart, parseEnd, bufferEnd)
    }

    ghost predicate Valid()
      reads this
    {
      parseOriginalStart < bufferEnd <= |mem| && parseEnd <= bufferEnd && parseEnd < |mem| &&
      size == StreamSize(parseOriginalStart, parseEnd, bufferEnd) &&
      count <= Distance(parseOriginalStart, parseEnd, bufferEnd) &&
      parseStart == Advance(parseOriginalStart, count, parseEnd, bufferEnd) &&
      parseStart <= bufferEnd &&
      (parseStart != parseEnd ==> parseStart < bufferEnd && nextChar == mem[parseStart]) &&
      (parseStart == parseEnd ==> nextChar == mem[parseEnd] || nextChar == NUL) &&
      Span(mem, parseStart, parseEnd, bufferEnd) == Whole()[count..]
    }

    /** The bytes not yet read. */
    function Remaining(): (s: seq<Byte>)
      reads this
      requires Valid()
      ensures s == Whole()[count..]
      ensures s == [] <==> parseStart == parseEnd
    {
      Span(mem, parseStart, parseEnd, bufferEnd)
    }

    /** The byte shown once the data is exhausted. */
    function Trailing(): Byte
      reads this
      requires Valid()
    {
      if parseStart == parseEnd then nextChar else mem[parseEnd]
    }

    /** What the stream still has to hand out. */
    function State(): Cursor
      reads this
      requires Valid()
    {
      Cursor(Remaining(), Trailing())
    }

    constructor (mem: seq<Byte>, parseStart: nat, parseEnd: nat, bufferEnd: nat)
      requires parseStart < bufferEnd <= |mem| && parseEnd <= bufferEnd && parseEnd < |mem|
      ensures Valid()
      ensures this.mem == mem && parseOriginalStart == parseStart
      ensures this.parseEnd == parseEnd && this.bufferEnd == bufferEnd
      ensures this.parseStart == parseStart && count == 0
      ensures parseEnd > parseStart ==> size == parseEnd - parseStart
      ensures parseEnd <= parseStart ==> size == (bufferEnd - parseStart) + parseEnd
      ensures parseStart != parseEnd ==> size == |Remaining()|
      ensures parseStart == parseEnd ==> size == bufferEnd && Remaining() == []
      ensures State() == Cursor(Span(mem, parseStart, parseEnd, bufferEnd), mem[parseEnd])
    {
      this.mem := mem;
      this.parseStart := parseStart;
      this.parseEnd := parseEnd;
      this.bufferEnd := bufferEnd;
      parseOriginalStart := parseStart;
      count := 0;
      nextChar := mem[parseStart];
      if parseEnd > parseStart {
        size := parseEnd - parseStart;
      } else {
        size := (bufferEnd - parseStart) + parseEnd;
      }
      new;
      if parseStart != parseEnd {
        SpanStep(mem, parseStart, parseEnd, bufferEnd);
      }
    }

    /** The next byte, without reading it. */
    function Peek(): (b: Byte)
      reads this
      requires Valid()
      ensures b == State().Peek()
      ensures parseStart != parseEnd ==> b == Remaining()[0]
    {
      if parseStart == parseEnd then nextChar
      else SpanStep(mem, parseStart, parseEnd, bufferEnd); nextChar
    }

    /** Reads one byte. Before the end it moves the cursor one step and
        counts it; at the end it only clears the byte it shows. */
    method Take() returns (b: Byte)
      requires Valid()
      modifies this
      ensures Valid()
      ensures b == old(Peek())
      ensures State() == old(State()).Take()
      ensures old(parseStart) != parseEnd ==>
                count == old(count) + 1 && parseStart == Next(old(parseStart), parseEnd, bufferEnd)
      ensures old(parseStart) == parseEnd ==>
                count == old(count) && parseStart == old(parseStart) && nextChar == NUL
    {
      if parseStart == parseEnd {
        b := nextChar;
        if nextChar != NUL {
          nextChar := NUL;
        }
      } else {
        SpanStep(mem, parseStart, parseEnd, bufferEnd);
        AdvanceStep(parseOriginalStart, count, parseEnd, bufferEnd);
        AdvanceRange(parseOriginalStart, count + 1, parseEnd, bufferEnd);
        ghost var was := Remaining();
        b := nextChar;
        parseStart := parseStart + 1;
        count := count + 1;
        if parseStart != parseEnd && parseStart == bufferEnd {
          parseStart := 0;
        }
        nextChar := mem[parseStart];
        assert Whole()[count..] == was[1..];
      }
    }

    /** The number of bytes read so far. */
    function Tell(): (n: nat)
      reads this
      requires Valid()
      ensures n <= size
      ensures n + |Remaining()| == |Whole()|
      ensures parseOriginalStart != parseEnd ==> (n == size <==> parseStart == parseEnd)
    {
      count
    }

    /** The position of the next four bytes when four are left by the byte
        count; it does not look at whether they cross `bufferEnd`. */
    function Peek4(): (p: Option<nat>)
      reads this
      requires Valid()
      ensures p.Some? <==> count + 4 <= size
      ensures p.Some? ==> p.value == parseStart
      ensures parseOriginalStart != parseEnd ==> (p.Some? <==> |Remaining()| >= 4)
    {
      if count + 4 <= size then Some(parseStart) else None
    }
  }

  /** The constructor of the UTF-8 `EncodedInputStream` over a wrapped stream:
      it reads a leading byte order mark, one byte test at a time. */
  method OpenUtf8Stream(ms: WrappedMemoryStream)
    requires ms.Valid()
    modifies ms
    ensures ms.Valid()
    ensures ms.State() == old(ms.State()).SkipBom()
    ensures old(ms.count) <= ms.count <= old(ms.count) + 3
  {
    if ms.Peek() == 0xEF {
      var skipped := ms.Take();
    }
    if ms.Peek() == 0xBB {
      var skipped := ms.Take();
    }
    if ms.Peek() == 0xBF {
      var skipped := ms.Take();
    }
  }

  /** The reads the JSON grammar makes through the UTF-8 reader while it
      parses one value: `n` calls of `Take`. */
  method ReadBytes(ms: WrappedMemoryStream, n: nat)
    requires ms.Valid()
    modifies ms
    ensures ms.Valid()
    ensures ms.State() == old(ms.State()).TakeN(n)
  {
    ghost var d := ms.State();
    var i := 0;
    while i < n
      invariant 0 <= i <= n
      invariant ms.Valid()
      invariant ms.State() == d.TakeN(i)
    {
      var b := ms.Take();
      i := i + 1;
    }
  }

  /** What a wrapped stream built on these positions hands out. */
  function WrapCursor(mem: seq<Byte>, parseStart: nat, parseEnd: nat, bufferEnd: nat): Cursor
    requires parseStart < bufferEnd <= |mem| && parseEnd <= bufferEnd && parseEnd < |mem|
  {
    Cursor(Span(mem, parseStart, parseEnd, bufferEnd), mem[parseEnd])
  }

  /** json_parse_wrap: parses one value from `parseStart`. On failure the
      out-parameter keeps its old value `tilIn`; on success, when it is
      wanted, it receives the final cursor, which lies as many bytes along
      the ring as the parse consumed. */
  method JsonParseWrap(mem: seq<Byte>, parseStart: nat, parseEnd: nat, bufferEnd: nat,
                       parser: Parser, storeTil: bool, tilIn: Option<nat>)
    returns (r: JsonPassed, til: Option<nat>)
    requires parseStart < bufferEnd <= |mem| && parseEnd <= bufferEnd && parseEnd < |mem|
    ensures var k := ParseConsumed(parser, WrapCursor(mem, parseStart, parseEnd, bufferEnd));
            (r == JsonPass <==> k.Some?) &&
            (k.None? || !storeTil ==> til == tilIn) &&
            (k.Some? && storeTil ==>
               til == Some(Advance(parseStart, k.value, parseEnd, bufferEnd)) &&
               til.value <= bufferEnd &&
               Distance(parseStart, til.value, bufferEnd) == k.value)
  {
    var ms := new WrappedMemoryStream(mem, parseStart, parseEnd, bufferEnd);
    ghost var c := ms.State();
    assert c == WrapCursor(mem, parseStart, parseEnd, bufferEnd);
    OpenUtf8Stream(ms);
    ghost var d := ms.State();
    assert d == c.SkipBom();
    var view := ms.State().Visible();
    assert view == d.Visible();
    var outcome := parser(view);
    match outcome {
      case Reject =>
        RejectConsumesNothing(parser, c, d);
        r, til := JsonFail, tilIn;
      case Accept(n) =>
        ReadBytes(ms, n);
        ghost var k := ms.count;
        assert ms.Whole() == c.rest;
        assert |ms.Remaining()| == |c.rest| - k;
        ConsumedAfterTakes(parser, c, d, n, ms.Remaining(), k);
        DistanceAdvance(parseStart, k, parseEnd, bufferEnd);
        assert ms.parseStart == Advance(parseStart, k, parseEnd, bufferEnd);
        r := JsonPass;
        til := if storeTil then Some(ms.parseStart) else tilIn;
    }
  }

  /** A parse that the grammar accepts after `n` reads consumes what those
      reads removed, the mark included. */
  lemma ConsumedAfterTakes(parser: Parser, c: Cursor, d: Cursor, n: Pos, rem: seq<Byte>, k: nat)
    requires d == c.SkipBom() && parser(d.Visible()) == Accept(n)
    requires rem == d.TakeN(n).rest && k == |c.rest| - |rem|
    ensures ParseConsumed(parser, c) == Some(k)
  {
  }

  /** A rejected parse consumes nothing. */
  lemma RejectConsumesNothing(parser: Parser, c: Cursor, d: Cursor)
    requires d == c.SkipBom() && parser(d.Visible()) == Reject
    ensures ParseConsumed(parser, c) == None
  {
  }

  /** json_parse: parses one value from a plain window of `maxLength` bytes
      (rapidjson's MemoryStream, which shows zero bytes at its end). On
      success the start moves past the value and `eof` is 0 exactly when the
      byte after the value is a newline; on failure nothing is written. */
  method JsonParse(mem: seq<Byte>, start: nat, maxLength: nat, parser: Parser, eofIn: int)
    returns (r: JsonPassed, startOut: nat, eof: int)
    requires start + maxLength < |mem|
    ensures var k := ParseConsumed(parser, Cursor(mem[start..start + maxLength], NUL));
            (r == JsonPass <==> k.Some?) &&
            (k.None? ==> startOut == start && eof == eofIn) &&
            (k.Some? ==> startOut == start + k.value && startOut <= start + maxLength &&
                         (maxLength > 0 ==> start < startOut) &&
                         (eof == 0 || eof == 1) && (eof == 0 <==> mem[startOut] == NL))
  {
    var ms := Cursor(mem[start..start + maxLength], NUL);
    var input := ms.SkipBom();
    match parser(input.Visible()) {
      case Reject =>
        r, startOut, eof := JsonFail, start, eofIn;
      case Accept(n) =>
        var finalPos := start + (maxLength - |input.TakeN(n).rest|);
        startOut := finalPos;
        if mem[finalPos] == NL {
          eof := 0;
        } else {
          eof := 1;
        }
        r := JsonPass;
    }
  }
}
