/** The view a data handler of src/flt_json.c gets of the channel buffer:
    `avail` bytes from index `start`, of which the first `left` are
    contiguous and the rest continue at the origin (index 0). */
module Channels {
  import opened Ring

  datatype Channel = Channel(mem: seq<Byte>, start: nat, left: nat, avail: nat) {

    /** What the host guarantees: the contiguous run fits in the allocation,
        it is not empty when there is data, and the wrapped part at the
        origin ends before the run starts. */
    predicate Valid()
    {
      left <= avail && start + left <= |mem| &&
      (avail > 0 ==> left > 0) &&
      (left < avail ==> avail - left <= start)
    }

    /** The available bytes in logical order. */
    function Data(): (d: seq<Byte>)
      requires Valid()
      ensures |d| == avail
    {
      mem[start..start + left] + mem[..avail - left]
    }

    /** The index in `mem` of logical offset `o`. */
    function Phys(o: nat): nat
    {
      if o < left then start + o else o - left
    }

    /** The first byte after the contiguous run: `parse_start + left`. */
    function BufferEnd(): nat
    {
      start + left
    }

    /** The index of the last available byte. */
    function ParseEnd(): nat
      requires Valid() && avail > 0
    {
      if left < avail then (avail - left) - 1 else start + left - 1
    }
  }

  /** Each available byte sits at its physical index. */
  lemma DataAt(ch: Channel, j: nat)
    requires ch.Valid() && j < ch.avail
    ensures ch.Phys(j) < |ch.mem|
    ensures ch.Data()[j] == ch.mem[ch.Phys(j)]
  {
  }

  /** Logical offsets below `avail` sit at distinct indices. */
  lemma PhysInjective(ch: Channel, o1: nat, o2: nat)
    requires ch.Valid() && o1 < ch.avail && o2 < ch.avail
    ensures ch.Phys(o1) == ch.Phys(o2) <==> o1 == o2
  {
  }

  /** From offset `o`, the ring span up to the last available byte holds
      the logical bytes from `o` to the next-to-last, and the last byte is
      the one at ParseEnd. */
  lemma ChannelSpan(ch: Channel, o: nat)
    requires ch.Valid() && o < ch.avail
    ensures ch.Phys(o) < ch.BufferEnd() <= |ch.mem|
    ensures ch.ParseEnd() < ch.BufferEnd() && ch.ParseEnd() < |ch.mem|
    ensures ch.Phys(ch.avail - 1) == ch.ParseEnd()
    ensures ch.mem[ch.ParseEnd()] == ch.Data()[ch.avail - 1]
    ensures Span(ch.mem, ch.Phys(o), ch.ParseEnd(), ch.BufferEnd()) == ch.Data()[o..ch.avail - 1]
  {
    var d := ch.Data();
    var s := Span(ch.mem, ch.Phys(o), ch.ParseEnd(), ch.BufferEnd());
    assert |s| == |d[o..ch.avail - 1]|;
    forall j | 0 <= j < |s|
      ensures s[j] == d[o + j]
    {
      if ch.left < ch.avail && o < ch.left {
        if j < ch.left - o {
          assert s[j] == ch.mem[ch.start + o + j];
        } else {
          assert s[j] == ch.mem[j - (ch.left - o)];
        }
      }
    }
  }

  /** Walking `k` steps of the stream from offset `o` lands at offset `o + k`. */
  lemma ChannelAdvance(ch: Channel, o: nat, k: nat)
    requires ch.Valid() && o + k < ch.avail
    ensures Advance(ch.Phys(o), k, ch.ParseEnd(), ch.BufferEnd()) == ch.Phys(o + k)
  {
  }
}
