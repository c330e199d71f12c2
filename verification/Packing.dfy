/**
 32-bit wrap-around, and the 64-bit words that pack two 32-bit halves: the work-stealing
 queue's [version:32 | index:32] and the handle's [generation:32 | slot:32]. A shift by 32
 is a multiplication by 2^32, and the halves have no bit in common, so `|` is an addition.
 */
module Packing {
  const TWO_TO_THE_32 := 0x1_0000_0000

  // A value as a uint32_t holds it.
  function Wrap32(v: int): nat {
    v % 0x1_0000_0000
  }

  datatype Word = Word(high: nat, low: nat)

  function Pack(w: Word): nat {
    w.high * 0x1_0000_0000 + w.low
  }

  function Unpack(v: nat): Word {
    Word(v / 0x1_0000_0000, v % 0x1_0000_0000)
  }

  predicate Halves(w: Word) {
    w.high < TWO_TO_THE_32 && w.low < TWO_TO_THE_32
  }

  /** The first half is the upper one. Packing and unpacking are inverse between pairs of 32-bit halves and 64-bit words, so
      that comparing two words compares both halves. */
  lemma PackUnpack(w: Word, v: nat)
    requires Halves(w) && v < 0x1_0000_0000 * 0x1_0000_0000
    ensures Pack(w) == w.high * 0x1_0000_0000 + w.low
    ensures Pack(w) < 0x1_0000_0000 * 0x1_0000_0000 && Unpack(Pack(w)) == w
    ensures Halves(Unpack(v)) && Pack(Unpack(v)) == v
  {
  }

  lemma WrapDifference(m: nat, n: nat)
    requires m <= n
    ensures Wrap32(m) == Wrap32(n) <==> (n - m) % 0x1_0000_0000 == 0
  {
  }
}
