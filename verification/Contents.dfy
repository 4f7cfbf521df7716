/** What a file contains: a function from offsets to bytes, holes and everything past the last block being 0. */
module Contents {
  import opened Bytes
  import opened BlockIndex
  import opened Tree

  ghost predicate BlockSizeOk(bs: nat) {
    bs == 1024 || bs == 2048
  }

  lemma BlockSizePositive(bs: nat)
    requires BlockSizeOk(bs)
    ensures bs > 0 && bs / 4 > 0
  {
  }

  /** The block that holds block n of file ino, or 0: a walk from the inode. */
  ghost function BlockOf(bs: nat, d: Disk, ino: nat, n: nat): nat
    requires BlockSizeOk(bs)
  {
    if n < Limit(bs / 4, 3) then At(d, FilePos(bs / 4, ino, n)) else 0
  }

  ghost function ByteAt(bs: nat, d: Disk, ino: nat, off: nat): byte
    requires BlockSizeOk(bs)
  {
    var b := BlockOf(bs, d, ino, off / bs);
    if 0 < b < |d.blocks| && off % bs < |d.blocks[b]| then d.blocks[b][off % bs] else 0
  }

  ghost function SizeOf(d: Disk, ino: nat): nat {
    if ino < |d.inodes| then d.inodes[ino].size else 0
  }

  ghost function Content(bs: nat, d: Disk, ino: nat): (c: seq<byte>)
    requires BlockSizeOk(bs)
    ensures |c| == SizeOf(d, ino)
    ensures forall x | 0 <= x < |c| :: c[x] == ByteAt(bs, d, ino, x)
  {
    seq(SizeOf(d, ino), (x: nat) => ByteAt(bs, d, ino, x))
  }

  /** Past the end of a file there are only zero bytes, so growing it needs no clearing. */
  ghost predicate ZeroTail(bs: nat, d: Disk, live: set<nat>)
    requires BlockSizeOk(bs)
  {
    forall i, off: nat | i in live && SizeOf(d, i) <= off :: ByteAt(bs, d, i, off) == 0
  }

  /** i_blocks counts a file's data and index blocks, in units of 512 bytes. */
  ghost predicate SectorsOk(bs: nat, d: Disk, live: set<nat>, owner: map<nat, Pos>) {
    forall i | i in live && i < |d.inodes| :: d.inodes[i].iblocks == |FileBlocks(owner, i)| * (bs / 512)
  }

  ghost predicate SizesOk(d: Disk, live: set<nat>) {
    forall i | i in live :: SizeOf(d, i) < TWO32
  }

  /** Every live file reads the same in d and d', byte by byte. */
  ghost predicate SameBytes(bs: nat, d: Disk, d': Disk, live: set<nat>)
    requires BlockSizeOk(bs)
  {
    forall i, off: nat | i in live :: ByteAt(bs, d', i, off) == ByteAt(bs, d, i, off)
  }

  lemma FilePosPlace(bs: nat, live: set<nat>, ino: nat, n: nat)
    requires BlockSizeOk(bs) && n < Limit(bs / 4, 3) && ino in live
    ensures Place(bs / 4, live, FilePos(bs / 4, ino, n)) && Leaf(FilePos(bs / 4, ino, n))
  {
    PathOk(bs / 4, ino, n, ModeOf(bs / 4, n));
  }

  /** If the walk gives the same block and the block the same bytes, the file has the same byte. */
  lemma SameBlockSameBytes(bs: nat, d: Disk, d': Disk, live: set<nat>)
    requires BlockSizeOk(bs) && |d'.blocks| == |d.blocks|
    requires forall p | Place(bs / 4, live, p) && Leaf(p) ::
      At(d', p) == At(d, p) && (0 < At(d, p) < |d.blocks| ==> d'.blocks[At(d, p)] == d.blocks[At(d, p)])
    ensures SameBytes(bs, d, d', live)
  {
    forall i, off: nat | i in live
      ensures ByteAt(bs, d', i, off) == ByteAt(bs, d, i, off)
    {
      if off / bs < Limit(bs / 4, 3) {
        FilePosPlace(bs, live, i, off / bs);
      }
    }
  }

  /** A write into the block of one file block changes that block of that file, and nothing else in any file. */
  lemma DataWrite(bs: nat, d: Disk, d': Disk, live: set<nat>, owner: map<nat, Pos>, ino: nat, n: nat, x: Block)
    requires BlockSizeOk(bs) && TreeInv(bs / 4, d, live, owner) && ino in live
    requires 0 < BlockOf(bs, d, ino, n) < |d.blocks| && |x| == bs
    requires d' == d.(blocks := d.blocks[BlockOf(bs, d, ino, n) := x])
    ensures TreeInv(bs / 4, d', live, owner)
    ensures forall p | Place(bs / 4, live, p) :: At(d', p) == At(d, p)
    ensures forall i, off: nat | i in live ::
      ByteAt(bs, d', i, off) == if i == ino && off / bs == n then x[off % bs] else ByteAt(bs, d, i, off)
  {
    var b := BlockOf(bs, d, ino, n);
    FilePosPlace(bs, live, ino, n);
    assert owner[b] == FilePos(bs / 4, ino, n);
    LeafWrite(bs / 4, d, d', live, owner, b);
    forall i, off: nat | i in live
      ensures ByteAt(bs, d', i, off) == if i == ino && off / bs == n then x[off % bs] else ByteAt(bs, d, i, off)
    {
      DataWriteByte(bs, d, d', live, owner, ino, n, x, i, off);
    }
  }

  lemma DataWriteByte(bs: nat, d: Disk, d': Disk, live: set<nat>, owner: map<nat, Pos>, ino: nat, n: nat, x: Block,
                      i: nat, off: nat)
    requires BlockSizeOk(bs) && TreeInv(bs / 4, d, live, owner) && ino in live && i in live
    requires 0 < BlockOf(bs, d, ino, n) < |d.blocks| && |x| == bs
    requires d' == d.(blocks := d.blocks[BlockOf(bs, d, ino, n) := x])
    requires forall p | Place(bs / 4, live, p) :: At(d', p) == At(d, p)
    ensures ByteAt(bs, d', i, off) == if i == ino && off / bs == n then x[off % bs] else ByteAt(bs, d, i, off)
  {
    hide FilePos, PosOk, Leaf, TreeInv;
    var m := off / bs;
    if m < Limit(bs / 4, 3) {
      FilePosPlace(bs, live, i, m);
      FilePosPlace(bs, live, ino, n);
      if BlockOf(bs, d, i, m) == BlockOf(bs, d, ino, n) {
        NoSharing(bs / 4, d, live, owner, FilePos(bs / 4, i, m), FilePos(bs / 4, ino, n));
        FilePosInjective(bs / 4, i, m, ino, n);
      }
    }
  }

  /** The other blocks of a grafted tree, and the zero-filled new data block, leave every file's bytes as they were. */
  lemma GraftBytes(bs: nat, d: Disk, d': Disk, live: set<nat>, owner: map<nat, Pos>, grown: map<Pos, nat>, q: Pos)
    requires BlockSizeOk(bs) && TreeInv(bs / 4, d, live, owner) && |d'.blocks| == |d.blocks|
    requires forall p | Place(bs / 4, live, p) :: At(d', p) == if p in grown then grown[p] else At(d, p)
    requires forall p | p in grown :: At(d, p) == 0 && 0 < grown[p] < |d.blocks|
    requires forall p | p in grown && Leaf(p) :: d'.blocks[grown[p]] == Zeros(bs)
    requires forall b | b in owner && Leaf(owner[b]) :: d'.blocks[b] == d.blocks[b]
    ensures SameBytes(bs, d, d', live)
  {
    forall i, off: nat | i in live
      ensures ByteAt(bs, d', i, off) == ByteAt(bs, d, i, off)
    {
      if off / bs < Limit(bs / 4, 3) {
        FilePosPlace(bs, live, i, off / bs);
      }
    }
  }

  lemma EmptyFile(bs: nat, d: Disk, i: nat)
    requires BlockSizeOk(bs) && forall s :: SlotAt(d, i, s) == 0
    ensures forall off: nat :: ByteAt(bs, d, i, off) == 0
  {
    forall off: nat
      ensures ByteAt(bs, d, i, off) == 0
    {
      if off / bs < Limit(bs / 4, 3) {
        FilePosPlace(bs, {i}, i, off / bs);
        EmptyFileAt(d, FilePos(bs / 4, i, off / bs));
      }
    }
  }

  lemma SameContent(bs: nat, d: Disk, d': Disk, i: nat)
    requires BlockSizeOk(bs) && SizeOf(d', i) == SizeOf(d, i)
    requires forall off: nat | off < SizeOf(d, i) :: ByteAt(bs, d', i, off) == ByteAt(bs, d, i, off)
    ensures Content(bs, d', i) == Content(bs, d, i)
  {
  }

  /** d and d' have the same blocks and the same i_block slots: sizes, modes and counts may differ. */
  ghost predicate SameSlots(d: Disk, d': Disk) {
    d'.blocks == d.blocks && forall i, s :: SlotAt(d', i, s) == SlotAt(d, i, s)
  }

  lemma SameSlotsAt(d: Disk, d': Disk)
    requires SameSlots(d, d')
    ensures forall p :: At(d', p) == At(d, p)
  {
    forall p ensures At(d', p) == At(d, p) { SameAt(d, d', p); }
  }

  lemma SameSlotsTree(links: nat, d: Disk, d': Disk, live: set<nat>, owner: map<nat, Pos>)
    requires SameSlots(d, d') && TreeInv(links, d, live, owner)
    ensures TreeInv(links, d', live, owner)
  {
    SameSlotsAt(d, d');
  }

  lemma SameSlotsBytes(bs: nat, d: Disk, d': Disk, live: set<nat>)
    requires BlockSizeOk(bs) && SameSlots(d, d')
    ensures SameBytes(bs, d, d', live)
    ensures forall i, n: nat :: BlockOf(bs, d', i, n) == BlockOf(bs, d, i, n)
  {
    SameSlotsAt(d, d');
  }

  /** Bytes that stay the same and sizes that do not shrink keep the tails zero. */
  lemma ZeroTailKept(bs: nat, d: Disk, d': Disk, live: set<nat>)
    requires BlockSizeOk(bs) && ZeroTail(bs, d, live) && SameBytes(bs, d, d', live)
    requires forall i | i in live :: SizeOf(d, i) <= SizeOf(d', i)
    ensures ZeroTail(bs, d', live)
  {
  }

  /** After a graft one file block has a block it had not, and every other block of every file is where it was. */
  lemma GraftBlockMap(bs: nat, d: Disk, d': Disk, live: set<nat>, grown: map<Pos, nat>, ino: nat, n: nat)
    requires BlockSizeOk(bs) && n < Limit(bs / 4, 3)
    requires forall p | Place(bs / 4, live, p) :: At(d', p) == if p in grown then grown[p] else At(d, p)
    requires FilePos(bs / 4, ino, n) in grown
    requires forall p | p in grown && Leaf(p) :: p == FilePos(bs / 4, ino, n)
    ensures forall i, m: nat | i in live ::
      BlockOf(bs, d', i, m) == if i == ino && m == n then grown[FilePos(bs / 4, ino, n)] else BlockOf(bs, d, i, m)
  {
    forall i, m: nat | i in live
      ensures BlockOf(bs, d', i, m) == if i == ino && m == n then grown[FilePos(bs / 4, ino, n)]
        else BlockOf(bs, d, i, m)
    {
      GraftBlockAt(bs, d, d', live, grown, ino, n, i, m);
    }
  }

  lemma GraftBlockAt(bs: nat, d: Disk, d': Disk, live: set<nat>, grown: map<Pos, nat>, ino: nat, n: nat, i: nat, m: nat)
    requires BlockSizeOk(bs) && n < Limit(bs / 4, 3) && i in live
    requires forall p | Place(bs / 4, live, p) :: At(d', p) == if p in grown then grown[p] else At(d, p)
    requires FilePos(bs / 4, ino, n) in grown
    requires forall p | p in grown && Leaf(p) :: p == FilePos(bs / 4, ino, n)
    ensures BlockOf(bs, d', i, m) == if i == ino && m == n then grown[FilePos(bs / 4, ino, n)] else BlockOf(bs, d, i, m)
  {
    hide FilePos, Place, Leaf, At;
    if m < Limit(bs / 4, 3) {
      FilePosPlace(bs, live, i, m);
      if FilePos(bs / 4, i, m) == FilePos(bs / 4, ino, n) {
        FilePosInjective(bs / 4, i, m, ino, n);
      }
    }
  }

  /** Blocks that belong to other files than ino, and every link of those files, are what they were. */
  ghost predicate Untouched(links: nat, d: Disk, d': Disk, live: set<nat>, owner: map<nat, Pos>, ino: nat) {
    && |d'.blocks| == |d.blocks|
    && (forall b | b in OwnersBut(owner, ino) :: b < |d.blocks| && d'.blocks[b] == d.blocks[b])
    && (forall p | Place(links, live, p) && InoOf(p) != ino :: At(d', p) == At(d, p))
  }

  lemma UntouchedTwice(links: nat, d0: Disk, d1: Disk, d2: Disk, live: set<nat>, owner0: map<nat, Pos>,
                       owner1: map<nat, Pos>, ino: nat)
    requires Untouched(links, d0, d1, live, owner0, ino) && Untouched(links, d1, d2, live, owner1, ino)
    requires OwnersGrow(owner0, owner1, ino)
    ensures Untouched(links, d0, d2, live, owner0, ino)
  {
    hide OwnersBut, Place, At, InoOf;
  }

  lemma UntouchedSameSlots(links: nat, d0: Disk, d1: Disk, d2: Disk, live: set<nat>, owner: map<nat, Pos>, ino: nat)
    requires Untouched(links, d0, d1, live, owner, ino) && SameSlots(d1, d2)
    ensures Untouched(links, d0, d2, live, owner, ino)
  {
    SameSlotsAt(d1, d2);
    hide OwnersBut, Place, At, InoOf;
  }
}
