/** The read side of an input stream as a value, and the parser that reads it.

    A stream of the source hands out its bytes through `Peek` and `Take`. What
    it still has to hand out is a `Cursor`: the bytes before the end of the
    stream (`rest`), then one `trailing` byte that a read at the end of the
    stream returns once, then the zero byte for ever. */
module ByteStream {
  import opened Ring
  import opened Wrappers

  const NUL: Byte := 0
  const NL: Byte := 10

  /** The UTF-8 encoding of U+FEFF, the byte order mark of section 6 of RFC 3629. */
  const BOM: seq<Byte> := [0xEF, 0xBB, 0xBF]

  datatype Cursor = Cursor(rest: seq<Byte>, trailing: Byte) {

    /** The byte the next read returns. */
    function Peek(): Byte
    {
      if rest != [] then rest[0] else trailing
    }

    /** What is left after one read. */
    function Take(): (c: Cursor)
      ensures rest != [] ==> [Peek()] + c.rest == rest && c.trailing == trailing
      ensures rest == [] ==> c.rest == [] && c.Peek() == NUL
    {
      if rest != [] then Cursor(rest[1..], trailing) else Cursor([], NUL)
    }

    /** What is left after `n` reads. */
    function TakeN(n: nat): (c: Cursor)
      ensures n <= |rest| ==> c == Cursor(rest[n..], trailing)
      ensures n > |rest| ==> c == Cursor([], NUL)
    {
      if n == 0 then this else TakeN(n - 1).Take()
    }

    /** Everything a reader can observe: the zero bytes after it are implied. */
    function Visible(): seq<Byte>
    {
      rest + [trailing]
    }

    /** Reads one byte when it is `b`. */
    function SkipByte(b: Byte): Cursor
    {
      if Peek() == b then Take() else this
    }

    /** The UTF-8 `EncodedInputStream` constructor: three reads, each done when
        the byte then in front of the stream is the next byte of the mark,
        whether or not the earlier ones matched. */
    function SkipBom(): (c: Cursor)
      ensures |c.rest| <= |rest| <= |c.rest| + 3
    {
      SkipByte(0xEF).SkipByte(0xBB).SkipByte(0xBF)
    }
  }

  /** The mark reader drops bytes only from the front. */
  lemma SkipBomSuffix(c: Cursor)
    ensures c.SkipBom().rest == c.rest[|c.rest| - |c.SkipBom().rest|..]
  {
  }

  /** A stream that starts with the byte order mark loses exactly the mark. */
  lemma SkipBomStripsMark(c: Cursor)
    requires |c.rest| >= 3 && c.rest[..3] == BOM
    ensures c.SkipBom() == Cursor(c.rest[3..], c.trailing)
  {
    assert c.rest[0] == 0xEF && c.rest[1] == 0xBB && c.rest[2] == 0xBF;
    assert c.rest[1..][1..] == c.rest[2..];
    assert c.rest[2..][1..] == c.rest[3..];
  }

  /** A stream whose first byte is none of the three mark bytes is untouched. */
  lemma SkipBomKeepsData(c: Cursor)
    requires c.Peek() != 0xEF && c.Peek() != 0xBB && c.Peek() != 0xBF
    ensures c.SkipBom() == c
  {
  }

  /** The three tests do not depend on each other: a stray 0xBB 0xBF pair at
      the front is dropped although no 0xEF came before it. */
  lemma SkipBomDropsStrayTail(c: Cursor)
    requires |c.rest| >= 2 && c.rest[0] == 0xBB && c.rest[1] == 0xBF
    ensures c.SkipBom() == Cursor(c.rest[2..], c.trailing)
  {
    assert c.rest[1..][1..] == c.rest[2..];
  }

  /** At least one byte: a JSON value is never empty. */
  type Pos = n: nat | 1 <= n witness 1

  /** What the JSON grammar decides about the bytes it is shown: accepted
      after `taken` reads, or rejected. */
  datatype ParseOutcome = Accept(taken: Pos) | Reject

  /** The JSON grammar, a parameter of the model: it sees what a stream
      will hand out and stops after one complete value. */
  type Parser = seq<Byte> -> ParseOutcome

  /** How many bytes of `c.rest` one parse consumes through the UTF-8 reader,
      mark included, or None when the grammar rejects. */
  function ParseConsumed(parser: Parser, c: Cursor): (k: Option<nat>)
    ensures k.None? <==> parser(c.SkipBom().Visible()).Reject?
    ensures k.Some? ==> k.value <= |c.rest|
    ensures k.Some? && c.rest != [] ==> 1 <= k.value
  {
    var d := c.SkipBom();
    match parser(d.Visible())
    case Reject => None
    case Accept(n) => Some((|c.rest| - |d.rest|) + if n <= |d.rest| then n else |d.rest|)
  }
}
