/** The record loop of json_tcp_data_parser (src/flt_json.c): parse one JSON
    value after another from the first available byte, stop at the first
    value the grammar rejects, and let through the bytes of the values that
    parsed. */
module RecordDriver {
  import opened Ring
  import opened Wrappers
  import opened ByteStream
  import opened Channels
  import opened JsonWrapper

  /** What one call of the record loop found: where the parsed records end
      (the number of bytes let through), how many parsed, how many failed. */
  datatype Tally = Tally(consumed: nat, parsed: nat, failed: nat)

  /** The parse that starts after `o` reads of the stream `c`. */
  function ParseAfter(parser: Parser, c: Cursor, o: nat): (k: Option<nat>)
    requires o <= |c.rest|
    ensures k.Some? ==> o + k.value <= |c.rest|
    ensures k.Some? && o < |c.rest| ==> 1 <= k.value
    decreases o
  {
    if o == 0 then ParseConsumed(parser, c) else ParseAfter(parser, c.Take(), o - 1)
  }

  /** Reading `o` bytes first is parsing the stream without them. */
  lemma {:induction false} ParseAfterDrops(parser: Parser, c: Cursor, o: nat)
    requires o <= |c.rest|
    ensures ParseAfter(parser, c, o) == ParseConsumed(parser, Cursor(c.rest[o..], c.trailing))
    decreases o
  {
    if o > 0 {
      ParseAfterDrops(parser, c.Take(), o - 1);
      assert c.Take().rest[o - 1..] == c.rest[o..];
    }
  }

  /** The available bytes `d` as a stream: the bytes before the last one
      are its data and the last one is the byte it shows at its end. */
  function Stream(d: seq<Byte>): (c: Cursor)
    requires d != []
    ensures |c.rest| == |d| - 1
  {
    Cursor(d[..|d| - 1], d[|d| - 1])
  }

  /** One parse from logical offset `o` of the available bytes `d`. */
  function ParseAt(parser: Parser, d: seq<Byte>, o: nat): (k: Option<nat>)
    requires o < |d|
    ensures k.Some? ==> o + k.value <= |d| - 1
    ensures k.Some? && o < |d| - 1 ==> 1 <= k.value
  {
    ParseAfter(parser, Stream(d), o)
  }

  /** The loop from offset `o` until the cursor reaches the last byte or a
      parse fails. */
  function Scan(parser: Parser, d: seq<Byte>, o: nat): (t: Tally)
    requires o < |d|
    ensures o <= t.consumed <= |d| - 1
    ensures t.failed <= 1
    ensures t.failed == 0 <==> t.consumed == |d| - 1
    ensures t.parsed == 0 ==> t.consumed == o
    decreases |d| - o
  {
    if o == |d| - 1 then Tally(o, 0, 0)
    else match ParseAt(parser, d, o)
      case None => Tally(o, 0, 1)
      case Some(k) =>
        var t := Scan(parser, d, o + k);
        Tally(t.consumed, t.parsed + 1, t.failed)
  }

  /** The whole handler: the loop from the first byte, plus the last byte
      when the parses ran exactly up to it. */
  function JsonRecords(parser: Parser, d: seq<Byte>): (t: Tally)
    ensures t.consumed <= |d|
    ensures t.failed <= 1
    ensures d != [] ==> (t.consumed == |d| <==> t.failed == 0 && t.parsed > 0)
    ensures t.parsed == 0 ==> t.consumed == 0
  {
    if d == [] then Tally(0, 0, 0)
    else
      var t := Scan(parser, d, 0);
      if t.consumed == |d| - 1 && t.parsed > 0 then Tally(|d|, t.parsed, t.failed) else t
  }

  /** A failing call stops exactly at the value the grammar rejects, after
      `parsed` accepted ones. */
  lemma {:induction false} ScanStopsAtRejection(parser: Parser, d: seq<Byte>, o: nat)
    requires o < |d| && Scan(parser, d, o).failed == 1
    ensures Scan(parser, d, o).consumed < |d| - 1
    ensures ParseAt(parser, d, Scan(parser, d, o).consumed).None?
    decreases |d| - o
  {
    if o < |d| - 1 {
      match ParseAt(parser, d, o)
      case None =>
      case Some(k) => ScanStopsAtRejection(parser, d, o + k);
    }
  }

  /** Every byte let through belongs to a value the grammar accepted: the
      parse at each record start accepts and leads to the next one. */
  lemma {:induction false} ScanCoversAccepted(parser: Parser, d: seq<Byte>, o: nat)
    requires o < |d| && Scan(parser, d, o).parsed > 0
    ensures ParseAt(parser, d, o).Some?
    ensures var k := ParseAt(parser, d, o).value;
            o + k <= Scan(parser, d, o).consumed &&
            Scan(parser, d, o + k).parsed == Scan(parser, d, o).parsed - 1
  {
  }

  /** The handler lets everything through exactly when every parse
      succeeded and they ran up to the last byte. */
  lemma {:induction false} AllParsed(parser: Parser, d: seq<Byte>)
    requires d != []
    ensures JsonRecords(parser, d).consumed == |d| <==>
              Scan(parser, d, 0).failed == 0 && Scan(parser, d, 0).parsed > 0
  {
  }

  /** One accepted record: the loop goes on from just after it. */
  lemma {:induction false} ScanAccept(parser: Parser, d: seq<Byte>, o: nat, k: nat)
    requires o < |d| - 1 && ParseAt(parser, d, o) == Some(k)
    ensures o + k < |d|
    ensures var t := Scan(parser, d, o + k);
            Scan(parser, d, o) == Tally(t.consumed, t.parsed + 1, t.failed)
  {
  }

  /** The wrapped stream json_parse_wrap builds at logical offset `o`
      parses like ParseAt. */
  lemma {:induction false} WrapCursorAt(ch: Channel, parser: Parser, o: nat)
    requires ch.Valid() && o < ch.avail
    ensures ch.Phys(o) < ch.BufferEnd() <= |ch.mem|
    ensures ch.ParseEnd() < ch.BufferEnd() && ch.ParseEnd() < |ch.mem|
    ensures ParseConsumed(parser, WrapCursor(ch.mem, ch.Phys(o), ch.ParseEnd(), ch.BufferEnd())) ==
            ParseAt(parser, ch.Data(), o)
  {
    ChannelSpan(ch, o);
    ParseAfterDrops(parser, Stream(ch.Data()), o);
    assert Stream(ch.Data()).rest[o..] == ch.Data()[o..ch.avail - 1];
  }

  /** After a parse of `k` bytes from offset `o`, the final cursor is the
      index of offset `o + k`, the source's wrap-aware change is `k`, and the
      cursor is at the last byte exactly when `o + k` is the last offset. */
  lemma {:induction false} RecordStep(ch: Channel, o: nat, k: nat, til: nat)
    requires ch.Valid() && o + k < ch.avail
    requires til == Advance(ch.Phys(o), k, ch.ParseEnd(), ch.BufferEnd())
    ensures til == ch.Phys(o + k)
    ensures (if til < ch.Phys(o) then (ch.BufferEnd() - ch.Phys(o)) + til else til - ch.Phys(o)) == k
    ensures til == ch.ParseEnd() <==> o + k == ch.avail - 1
  {
    ChannelAdvance(ch, o, k);
    ChannelSpan(ch, o);
    ChannelSpan(ch, o + k);
    DistanceAdvance(ch.Phys(o), k, ch.ParseEnd(), ch.BufferEnd());
    PhysInjective(ch, o + k, ch.avail - 1);
  }

  /** `starts` lists the record starts the loop has gone through from the
      first byte: each parse accepted and the next start is where it ended. */
  predicate Chain(parser: Parser, d: seq<Byte>, starts: seq<nat>)
    decreases |starts|
  {
    if |starts| <= 1 then starts == [0] && 0 < |d|
    else
      var o, next := starts[|starts| - 2], starts[|starts| - 1];
      Chain(parser, d, starts[..|starts| - 1]) &&
      o < next < |d| && ParseAt(parser, d, o) == Some(next - o)
  }

  /** An accepted parse at the last start extends the chain. */
  lemma {:induction false} ChainExtend(parser: Parser, d: seq<Byte>, starts: seq<nat>, next: nat)
    requires Chain(parser, d, starts) && |starts| > 0
    requires var o := starts[|starts| - 1];
             o < next < |d| && ParseAt(parser, d, o) == Some(next - o)
    ensures Chain(parser, d, starts + [next])
  {
    assert (starts + [next])[..|starts|] == starts;
  }

  /** Along a chain of accepted records the tally from the first byte is
      the tally from the last start plus the records passed on the way. */
  lemma {:induction false} ChainScan(parser: Parser, d: seq<Byte>, starts: seq<nat>)
    requires Chain(parser, d, starts)
    ensures |starts| > 0 && starts[|starts| - 1] < |d|
    ensures var t := Scan(parser, d, starts[|starts| - 1]);
            Scan(parser, d, 0) == Tally(t.consumed, t.parsed + (|starts| - 1), t.failed)
    decreases |starts|
  {
    if |starts| > 1 {
      var init := starts[..|starts| - 1];
      ChainScan(parser, d, init);
      var o := starts[|starts| - 2];
      assert init[|init| - 1] == o;
      ScanAccept(parser, d, o, starts[|starts| - 1] - o);
    }
  }

  /** Where the loop leaves off decides the handler's tally: at the last
      byte the bytes are all let through when some record parsed, and at a
      rejected record everything before it is. */
  lemma {:induction false} ChainEnd(parser: Parser, d: seq<Byte>, starts: seq<nat>)
    requires Chain(parser, d, starts)
    requires var o := starts[|starts| - 1];
             o == |d| - 1 || ParseAt(parser, d, o).None?
    ensures var o, n := starts[|starts| - 1], |starts| - 1;
            JsonRecords(parser, d) ==
              if o < |d| - 1 then Tally(o, n, 1)
              else if n > 0 then Tally(|d|, n, 0)
              else Tally(o, 0, 0)
  {
    ChainScan(parser, d, starts);
  }

  /** One call of json_parse_wrap at logical offset `o` of the channel,
      storing where the parse ended. */
  method ParseRecord(ch: Channel, parser: Parser, o: nat, ghost starts: seq<nat>, tilIn: Option<nat>)
    returns (r: JsonPassed, til: Option<nat>, ghost next: nat)
    requires ch.Valid() && Chain(parser, ch.Data(), starts)
    requires |starts| > 0 && starts[|starts| - 1] == o && o < ch.avail - 1
    ensures r == JsonFail ==> til == tilIn && ParseAt(parser, ch.Data(), o).None?
    ensures r == JsonPass ==>
              o < next < ch.avail && til == Some(ch.Phys(next)) &&
              Chain(parser, ch.Data(), starts + [next]) &&
              (if ch.Phys(next) < ch.Phys(o) then (ch.BufferEnd() - ch.Phys(o)) + ch.Phys(next)
               else ch.Phys(next) - ch.Phys(o)) == next - o &&
              (ch.Phys(next) == ch.ParseEnd() <==> next == ch.avail - 1)
  {
    WrapCursorAt(ch, parser, o);
    r, til := JsonParseWrap(ch.mem, ch.Phys(o), ch.ParseEnd(), ch.BufferEnd(), parser, true, tilIn);
    next := o;
    if r == JsonPass {
      ghost var k := ParseAt(parser, ch.Data(), o).value;
      next := o + k;
      RecordStep(ch, o, k, til.value);
      ChainExtend(parser, ch.Data(), starts, next);
    }
  }

  /** json_tcp_data_parser's scan of a channel with data, proved to
      compute JsonRecords of the available bytes. `parsedTil` starts as None
      where the source leaves it uninitialised, so a call in which no parse
      succeeds never adds the final byte. */
  method ScanJsonRecords(ch: Channel, parser: Parser)
    returns (ret: nat, parsedRecords: nat, failedRecords: nat)
    requires ch.Valid() && ch.avail > 0
    ensures Tally(ret, parsedRecords, failedRecords) == JsonRecords(parser, ch.Data())
  {
    ghost var d := ch.Data();
    var left := ch.left;
    var parseStart := ch.start;
    var bufferEnd := parseStart + left;
    var parseEnd;
    if left < ch.avail {
      parseEnd := (ch.avail - left) - 1;
    } else {
      parseEnd := parseStart + left - 1;
    }
    assert parseEnd == ch.ParseEnd() && bufferEnd == ch.BufferEnd();
    var parsedTil: Option<nat> := None;
    parsedRecords, failedRecords := 0, 0;
    ret := 0;
    ChannelSpan(ch, 0);
    ghost var starts: seq<nat> := [0];
    while parseStart != parseEnd
      invariant ret < ch.avail && parseStart == ch.Phys(ret)
      invariant parseStart == parseEnd <==> ret == ch.avail - 1
      invariant failedRecords == 0
      invariant parsedTil == if parsedRecords == 0 then None else Some(parseStart)
      invariant Chain(parser, d, starts)
      invariant starts[|starts| - 1] == ret && |starts| == parsedRecords + 1
      decreases ch.avail - ret
    {
      var r;
      ghost var next;
      r, parsedTil, next := ParseRecord(ch, parser, ret, starts, parsedTil);
      if r == JsonPass {
        var change;
        if parsedTil.value < parseStart {
          change := (bufferEnd - parseStart) + parsedTil.value;
        } else {
          change := parsedTil.value - parseStart;
        }
        ret := ret + change;
        parseStart := parsedTil.value;
        parsedRecords := parsedRecords + 1;
        starts := starts + [next];
      } else {
        failedRecords := failedRecords + 1;
        break;
      }
    }
    ChainEnd(parser, d, starts);
    if parsedTil == Some(parseEnd) {
      ret := ret + 1;
    }
  }
}
