/** Bytes and the little-endian 16- and 32-bit fields the on-disk structures are made of. */
module Bytes {

  type byte = x: nat | x < 0x100

  type Block = seq<byte>

  const TWO32: nat := 0x1_0000_0000

  lemma TwoTo32()
    ensures TWO32 == 0x1_0000_0000
  {
  }

  /** A run of n zero bytes: zero_block, and what a hole reads as. */
  function Zeros(n: nat): (r: seq<byte>)
    ensures |r| == n && forall i | 0 <= i < n :: r[i] == 0
  {
    seq(n, i => 0)
  }

  /** The 32-bit word stored at byte offset o; 0 where the buffer has no such word. */
  function U32(b: seq<byte>, o: nat): nat {
    if o + 4 <= |b| then
      b[o] as nat + 0x100 * b[o + 1] as nat + 0x1_0000 * b[o + 2] as nat + 0x100_0000 * b[o + 3] as nat
    else 0
  }

  function PutU32(b: seq<byte>, o: nat, w: nat): (r: seq<byte>)
    requires o + 4 <= |b| && w < TWO32
    ensures |r| == |b|
  {
    b[o := w % 0x100][o + 1 := w / 0x100 % 0x100][o + 2 := w / 0x1_0000 % 0x100][o + 3 := w / 0x100_0000]
  }

  function U16(b: seq<byte>, o: nat): nat {
    if o + 2 <= |b| then b[o] as nat + 0x100 * b[o + 1] as nat else 0
  }

  function LE16(w: nat): (r: seq<byte>)
    requires w < 0x1_0000
    ensures |r| == 2
  {
    [w % 0x100, w / 0x100]
  }

  function LE32(w: nat): (r: seq<byte>)
    requires w < TWO32
    ensures |r| == 4
  {
    [w % 0x100, w / 0x100 % 0x100, w / 0x1_0000 % 0x100, w / 0x100_0000]
  }

  /** get_blk_from_idx_blk: entry k of an index block. */
  function Link(b: Block, k: nat): nat {
    U32(b, 4 * k)
  }

  /** `scratch_blk[k] = w` on an index block. */
  function PutLink(b: Block, k: nat, w: nat): (r: Block)
    requires 4 * k + 4 <= |b| && w < TWO32
    ensures |r| == |b|
  {
    PutU32(b, 4 * k, w)
  }

  /** An entry of an index block is four bytes, the lowest first. */
  lemma LinkSpelled(b: Block, k: nat)
    requires 4 * k + 4 <= |b|
    ensures Link(b, k)
      == b[4 * k] as nat + 0x100 * b[4 * k + 1] as nat + 0x1_0000 * b[4 * k + 2] as nat
        + 0x100_0000 * b[4 * k + 3] as nat
  {
  }

  /** Writing one changes those four bytes and no other. */
  lemma PutLinkStores(b: Block, k: nat, w: nat)
    requires 4 * k + 4 <= |b| && w < TWO32
    ensures var r := PutLink(b, k, w);
      && r[4 * k] as nat + 0x100 * r[4 * k + 1] as nat + 0x1_0000 * r[4 * k + 2] as nat
        + 0x100_0000 * r[4 * k + 3] as nat == w
      && (forall x | 0 <= x < |b| && !(4 * k <= x < 4 * k + 4) :: r[x] == b[x])
  {
    WordDigits(w);
  }

  /** Writing one entry of an index block changes that entry and no other. */
  lemma PutLinkLink(b: Block, k: nat, w: nat, j: nat)
    requires 4 * k + 4 <= |b| && w < TWO32
    ensures Link(PutLink(b, k, w), j) == if j == k then w else Link(b, j)
  {
    if j == k {
      WordDigits(w);
    } else if j < k {
      assert 4 * j + 4 <= 4 * k;
    } else {
      assert 4 * k + 4 <= 4 * j;
    }
  }

  /** A 16-bit and a 32-bit field read back as they were stored. */
  lemma FieldsReadBack(h: nat, w: nat)
    requires h < 0x1_0000 && w < TWO32
    ensures U16(LE16(h), 0) == h && U32(LE32(w), 0) == w
  {
    WordDigits(w);
  }

  lemma WordDigits(w: nat)
    requires w < TWO32
    ensures w
      == w % 0x100 + 0x100 * (w / 0x100 % 0x100) + 0x1_0000 * (w / 0x1_0000 % 0x100) + 0x100_0000 * (w / 0x100_0000)
  {
  }

  lemma ZeroLinks(n: nat, j: nat)
    ensures Link(Zeros(n), j) == 0
  {
  }

  /** The bytes of `base` with `buf` laid over them from `off` on, zero-extended when they reach past the end. */
  function Overlay(base: seq<byte>, off: nat, buf: seq<byte>): (r: seq<byte>)
    ensures |r| == if off + |buf| > |base| then off + |buf| else |base|
    ensures forall x | 0 <= x < |r| ::
      r[x] == (if off <= x < off + |buf| then buf[x - off] else if x < |base| then base[x] else 0)
  {
    var n := if off + |buf| > |base| then off + |buf| else |base|;
    seq(n, x requires 0 <= x < n =>
      if off <= x < off + |buf| then buf[x - off] else if x < |base| then base[x] else 0)
  }

  /** Bytes [a, b) of s that exist. */
  function Clamp(s: seq<byte>, off: nat, count: nat): (r: seq<byte>) {
    var o := if off < |s| then off else |s|;
    var c := if count < |s| - o then count else |s| - o;
    s[o..o + c]
  }
}
