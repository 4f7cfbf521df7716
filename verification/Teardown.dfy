/** Deleting a file: deallocate_data_blocks_level, deallocate_data_blocks and remove_file_ext2. */
module Teardown {
  import opened Bytes
  import opened Accounting
  import opened Layout
  import opened Tree
  import opened Contents
  import opened Volumes
  import opened FileHandles

  /** Exactly the blocks of s went from used to free, and both counters moved by their number. */
  ghost predicate Freed(used: set<nat>, free: nat, sum: nat, used': set<nat>, free': nat, sum': nat, s: set<nat>) {
    && s <= used
    && used' == used - s
    && free' == free + |s|
    && sum' == sum + |s|
  }

  lemma FreedTwice(used: set<nat>, free: nat, sum: nat, used1: set<nat>, free1: nat, sum1: nat, s: set<nat>,
                   used2: set<nat>, free2: nat, sum2: nat, t: set<nat>)
    requires Freed(used, free, sum, used1, free1, sum1, s) && Freed(used1, free1, sum1, used2, free2, sum2, t)
    ensures s !! t && Freed(used, free, sum, used2, free2, sum2, s + t)
  {
    assert |s + t| == |s| + |t|;
  }

  /** deallocate_block on a block that is marked used. */
  method FreeOne(v: Volume, b: nat)
    requires v.BlocksAccounted() && b != 0 && b in v.used
    modifies v`groups, v`blockBits, v`used, v`freeBlocks
    ensures v.BlocksAccounted() && InodeCounts(v.groups) == old(InodeCounts(v.groups))
    ensures Freed(old(v.used), old(v.freeBlocks), old(Sum(BlockCounts(v.groups))), v.used, v.freeBlocks,
                  Sum(BlockCounts(v.groups)), {b})
  {
    v.DeallocateBlock(b);
  }

  /** Place p keeps block number b and has `level` levels of index blocks below it. */
  ghost predicate Rooted(v: Volume, d: Disk, p: Pos, b: nat, level: nat)
    reads v`live, v`owner, v`blocks
  {
    && v.geo.Ok() && d.blocks == v.blocks
    && TreeInv(v.LinksPerBlock(), d, v.live, v.owner)
    && Place(v.LinksPerBlock(), v.live, p) && At(d, p) == b
    && Depth(p) + level == Levels(SlotOf(p))
  }

  /** ... and everything reachable through it is still marked used. */
  ghost predicate Standing(v: Volume, d: Disk, p: Pos, b: nat, level: nat)
    reads v`used, v`live, v`owner, v`blocks
  {
    Rooted(v, d, p, b, level) && Below(v.owner, p) <= v.used
  }

  /** deallocate_data_blocks_level: frees the block kept at p and everything reachable through it. */
  method DeallocateLevel(v: Volume, ghost d: Disk, ghost p: Pos, b: nat, level: nat)
    requires v.BlocksAccounted() && Standing(v, d, p, b, level)
    modifies v`groups, v`blockBits, v`used, v`freeBlocks
    ensures v.BlocksAccounted() && InodeCounts(v.groups) == old(InodeCounts(v.groups))
    ensures Freed(old(v.used), old(v.freeBlocks), old(Sum(BlockCounts(v.groups))),
                  v.used, v.freeBlocks, Sum(BlockCounts(v.groups)), Below(v.owner, p))
    decreases level
  {
    hide *;
    if b == 0 {
      StandingMissing(v, d, p, b, level);
      return;
    }
    if level == 0 {
      StandingLeaf(v, d, p, b, level);
      FreeOne(v, b);
      return;
    }
    StandingInner(v, d, p, b, level);
    ghost var owner, links := v.owner, v.LinksPerBlock();
    var scratch := v.blocks[b];
    var i := 0;
    while i < v.geo.blockSize / 4
      invariant 0 <= i <= links
      invariant v.BlocksAccounted() && InodeCounts(v.groups) == old(InodeCounts(v.groups))
      invariant Freed(old(v.used), old(v.freeBlocks), old(Sum(BlockCounts(v.groups))),
                      v.used, v.freeBlocks, Sum(BlockCounts(v.groups)), BelowEntries(owner, p, i))
    {
      label Before:
      EntryStanding(v, d, p, b, level, i, old(v.used), old(v.freeBlocks), old(Sum(BlockCounts(v.groups))));
      DeallocateLevel(v, d, Entry(p, i), Link(scratch, i), level - 1);
      FreedTwice(old(v.used), old(v.freeBlocks), old(Sum(BlockCounts(v.groups))),
                 old@Before(v.used), old@Before(v.freeBlocks), old@Before(Sum(BlockCounts(v.groups))),
                   BelowEntries(owner, p, i),
                 v.used, v.freeBlocks, Sum(BlockCounts(v.groups)), Below(owner, Entry(p, i)));
      BelowEntriesStep(owner, p, i);
      i := i + 1;
    }
    label Entries:
    StillUsed(old(v.used), old(v.freeBlocks), old(Sum(BlockCounts(v.groups))),
              v.used, v.freeBlocks, Sum(BlockCounts(v.groups)), BelowEntries(owner, p, links), Below(owner, p), b);
    FreeOne(v, b);
    FreedTwice(old(v.used), old(v.freeBlocks), old(Sum(BlockCounts(v.groups))),
               old@Entries(v.used), old@Entries(v.freeBlocks), old@Entries(Sum(BlockCounts(v.groups))),
                 BelowEntries(owner, p, links),
               v.used, v.freeBlocks, Sum(BlockCounts(v.groups)), {b});
  }

  lemma StandingMissing(v: Volume, d: Disk, p: Pos, b: nat, level: nat)
    requires Standing(v, d, p, b, level) && b == 0
    ensures Freed(v.used, v.freeBlocks, Sum(BlockCounts(v.groups)), v.used, v.freeBlocks, Sum(BlockCounts(v.groups)),
                  Below(v.owner, p))
  {
    BelowMissing(v.LinksPerBlock(), d, v.live, v.owner, p);
    assert v.used - {} == v.used;
  }

  lemma StandingLeaf(v: Volume, d: Disk, p: Pos, b: nat, level: nat)
    requires Standing(v, d, p, b, level) && b != 0 && level == 0
    ensures Below(v.owner, p) == {b} && b in v.used
  {
    BelowLeaf(v.LinksPerBlock(), d, v.live, v.owner, p);
  }

  lemma StandingInner(v: Volume, d: Disk, p: Pos, b: nat, level: nat)
    requires Standing(v, d, p, b, level) && b != 0 && level > 0
    ensures Rooted(v, d, p, b, level) && v.geo.blockSize / 4 == v.LinksPerBlock() && 0 < b < |v.blocks|
    ensures BelowEntries(v.owner, p, 0) == {}
    ensures Below(v.owner, p) == BelowEntries(v.owner, p, v.LinksPerBlock()) + {b}
      && b !in BelowEntries(v.owner, p, v.LinksPerBlock())
    ensures Below(v.owner, p) <= v.used
    ensures Freed(v.used, v.freeBlocks, Sum(BlockCounts(v.groups)), v.used, v.freeBlocks, Sum(BlockCounts(v.groups)),
                  BelowEntries(v.owner, p, 0))
  {
    BelowInner(v.LinksPerBlock(), d, v.live, v.owner, p);
    assert v.used - {} == v.used;
  }

  /** In the middle of the loop the subtree of the next entry is untouched. */
  lemma EntryStanding(v: Volume, d: Disk, p: Pos, b: nat, level: nat, i: nat, used: set<nat>, free: nat, sum: nat)
    requires Rooted(v, d, p, b, level) && b != 0 && level > 0 && i < v.LinksPerBlock()
    requires Below(v.owner, p) <= used
    requires Freed(used, free, sum, v.used, v.freeBlocks, Sum(BlockCounts(v.groups)), BelowEntries(v.owner, p, i))
    ensures b < |v.blocks| && Standing(v, d, Entry(p, i), Link(v.blocks[b], i), level - 1)
  {
    BelowEntriesStep(v.owner, p, i);
    forall x | x in Below(v.owner, Entry(p, i))
      ensures x in v.used
    {
      UnderTrans(v.owner[x], p, i);
    }
  }

  lemma StillUsed(used: set<nat>, free: nat, sum: nat, used': set<nat>, free': nat, sum': nat, s: set<nat>,
                  all: set<nat>, b: nat)
    requires Freed(used, free, sum, used', free', sum', s) && all <= used && b in all && b !in s
    ensures b in used'
  {
  }

  /** File ino, with the slots `block`, on a disk whose tree is in order. */
  ghost predicate FileOn(v: Volume, d: Disk, ino: nat, block: seq<nat>)
    reads v`live, v`owner, v`blocks
  {
    && v.geo.Ok() && d.blocks == v.blocks
    && TreeInv(v.LinksPerBlock(), d, v.live, v.owner) && ino in v.live
    && |block| == SLOTS && (forall t: nat | t < SLOTS :: SlotAt(d, ino, t) == block[t])
  }

  /** One slot of the inode: the subtree it refers to is freed, and the slot is cleared in memory. For a direct slot the
      subtree is the one data block. */
  method FreeSlot(v: Volume, h: FileHandle, ghost d: Disk, s: nat, ghost block: seq<nat>, ghost used: set<nat>,
                  ghost free: nat, ghost sum: nat)
    requires v.BlocksAccounted() && FileOn(v, d, h.ino, block) && FileBlocks(v.owner, h.ino) <= used
    requires s < SLOTS && |h.inode.block| == |block| == SLOTS && h.inode.block[s] == block[s]
    requires Freed(used, free, sum, v.used, v.freeBlocks, Sum(BlockCounts(v.groups)), SlotBlocks(v.owner, h.ino, s))
    modifies v`groups, v`blockBits, v`used, v`freeBlocks, h`inode
    ensures v.BlocksAccounted() && InodeCounts(v.groups) == old(InodeCounts(v.groups))
    ensures Freed(used, free, sum, v.used, v.freeBlocks, Sum(BlockCounts(v.groups)), SlotBlocks(v.owner, h.ino, s + 1))
    ensures h.inode == old(h.inode).(block := old(h.inode.block)[s := 0])
  {
    hide *;
    SlotStanding(v, d, h.ino, block, s, used, free, sum);
    DeallocateLevel(v, d, Slot(h.ino, s), h.inode.block[s], Levels(s));
    h.inode := h.inode.(block := h.inode.block[s := 0]);
    FreedTwice(used, free, sum, old(v.used), old(v.freeBlocks), old(Sum(BlockCounts(v.groups))),
               SlotBlocks(v.owner, h.ino, s),
               v.used, v.freeBlocks, Sum(BlockCounts(v.groups)), Below(v.owner, Slot(h.ino, s)));
    SlotBlocksStep(v.owner, h.ino, s);
  }

  lemma SlotStanding(v: Volume, d: Disk, ino: nat, block: seq<nat>, s: nat, used: set<nat>, free: nat, sum: nat)
    requires FileOn(v, d, ino, block) && s < SLOTS && FileBlocks(v.owner, ino) <= used
    requires Freed(used, free, sum, v.used, v.freeBlocks, Sum(BlockCounts(v.groups)), SlotBlocks(v.owner, ino, s))
    ensures |block| == SLOTS && Standing(v, d, Slot(ino, s), block[s], Levels(s))
  {
    SlotBlocksStep(v.owner, ino, s);
    forall x | x in Below(v.owner, Slot(ino, s))
      ensures x in v.used
    {
      UnderDepth(v.owner[x], Slot(ino, s));
      assert x in FileBlocks(v.owner, ino);
    }
  }

  /** deallocate_data_blocks: the direct blocks, then the three trees; the in-memory inode ends up without blocks. */
  method DeallocateDataBlocks(v: Volume, h: FileHandle)
    requires v.Sound() && h.ino in v.live && h.ino < |v.inodes|
    requires |h.inode.block| == SLOTS && h.inode.block == v.inodes[h.ino].block
    modifies v`groups, v`blockBits, v`used, v`freeBlocks, h`inode
    ensures v.BlocksAccounted() && InodeCounts(v.groups) == old(InodeCounts(v.groups))
    ensures Freed(old(v.used), old(v.freeBlocks), old(Sum(BlockCounts(v.groups))),
                  v.used, v.freeBlocks, Sum(BlockCounts(v.groups)), FileBlocks(v.owner, h.ino))
    ensures h.inode == old(h.inode).(block := NO_INODE.block, iblocks := 0, size := 0)
  {
    hide *;
    ghost var d, block := v.D(), h.inode.block;
    ghost var used, free, sum := v.used, v.freeBlocks, Sum(BlockCounts(v.groups));
    FileStanding(v, h, d);
    SlotCount();
    var i := 0;
    while i < 12
      invariant 0 <= i <= 12 && |h.inode.block| == SLOTS
      invariant h.inode == old(h.inode).(block := h.inode.block)
      invariant forall s | 0 <= s < SLOTS :: h.inode.block[s] == if s < i then 0 else block[s]
      invariant v.BlocksAccounted() && InodeCounts(v.groups) == old(InodeCounts(v.groups))
      invariant Freed(used, free, sum, v.used, v.freeBlocks, Sum(BlockCounts(v.groups)), SlotBlocks(v.owner, h.ino, i))
    {
      FreeSlot(v, h, d, i, block, used, free, sum);
      i := i + 1;
    }
    FreeSlot(v, h, d, 12, block, used, free, sum);
    FreeSlot(v, h, d, 13, block, used, free, sum);
    FreeSlot(v, h, d, 14, block, used, free, sum);
    AllSlots(v.geo.blockSize / 4, d, v.live, v.owner, h.ino);
    NoBlocks(h.inode.block);
    h.inode := h.inode.(iblocks := 0, size := 0);
  }

  lemma NoBlocks(block: seq<nat>)
    requires |block| == SLOTS && forall s | 0 <= s < SLOTS :: block[s] == 0
    ensures block == NO_INODE.block
  {
  }

  lemma FileStanding(v: Volume, h: FileHandle, d: Disk)
    requires v.Sound() && h.ino in v.live && h.ino < |v.inodes| && d == v.D()
    requires |h.inode.block| == SLOTS && h.inode.block == v.inodes[h.ino].block
    ensures v.BlocksAccounted() && FileOn(v, d, h.ino, h.inode.block)
    ensures TreeInv(v.geo.blockSize / 4, d, v.live, v.owner)
    ensures Freed(v.used, v.freeBlocks, Sum(BlockCounts(v.groups)), v.used, v.freeBlocks, Sum(BlockCounts(v.groups)),
                  SlotBlocks(v.owner, h.ino, 0))
    ensures FileBlocks(v.owner, h.ino) <= v.used
  {
    assert SlotBlocks(v.owner, h.ino, 0) == {};
    assert v.used - {} == v.used;
  }

  /** remove_file_ext2: frees the blocks, clears the inode record and gives the inode number back. The mode is cleared
      before deallocate_inode looks at it, so a directory is never taken off the group's directory count here. */
  method RemoveFile(v: Volume, h: FileHandle)
    requires v.Consistent() && h.ino in v.live && h.ino < |v.inodes|
    requires |h.inode.block| == SLOTS && h.inode.block == v.inodes[h.ino].block
    modifies v`inodes, v`groups, v`blockBits, v`inodeBits, v`used, v`live, v`owner, v`freeBlocks, v`freeInodes
    modifies v`dirCounts, h`inode
    ensures v.Consistent() && v.dirCounts == old(v.dirCounts)
    ensures v.live == old(v.live) - {h.ino}
    ensures v.owner == old(v.owner) - FileBlocks(old(v.owner), h.ino)
    ensures v.used == old(v.used) - FileBlocks(old(v.owner), h.ino)
    ensures v.inodes == old(v.inodes)[h.ino := NO_INODE] && h.inode == NO_INODE
    ensures SameBytes(v.geo.blockSize, old(v.D()), v.D(), v.live)
    ensures v.freeBlocks == old(v.freeBlocks) + |FileBlocks(old(v.owner), h.ino)|
      && v.freeInodes == old(v.freeInodes) + 1
  {
    hide *;
    ConsistentIs(v);
    SoundFacts(v);
    ghost var d, owner, live, blocks := v.D(), v.owner, v.live, FileBlocks(v.owner, h.ino);
    DeallocateDataBlocks(v, h);
    h.inode := NO_INODE;
    WriteInode(v, h);
    NoInodeSlots();
    InodesIntro(v);
    AccountedFacts(v);
    v.DeallocateInode(h.ino, IsDir(h.inode.mode));
    InodesFacts(v);
    v.owner := v.owner - blocks;
    VolumeDisk(v);
    FileRemoved(v.geo.blockSize, d, v.D(), live, owner, h.ino);
    FreedFacts(old(v.used), old(v.freeBlocks), old(Sum(BlockCounts(v.groups))), v.used, v.freeBlocks,
               Sum(BlockCounts(v.groups)), blocks);
    AccountedFacts(v);
    NotCounted(v.geo, old(v.dirCounts), v.dirCounts, h.ino, IsDir(NO_INODE.mode));
    SoundIntro(v);
    ConsistentIs(v);
  }

  lemma NotCounted(geo: Geometry, counts: seq<nat>, counts': seq<nat>, ino: nat, isDir: bool)
    requires DirCountedDown(geo, counts, counts', ino, isDir) && !isDir
    ensures counts' == counts
  {
  }

  lemma FreedFacts(used: set<nat>, free: nat, sum: nat, used': set<nat>, free': nat, sum': nat, s: set<nat>)
    requires Freed(used, free, sum, used', free', sum', s)
    ensures used' == used - s && free' == free + |s| && sum' == sum + |s|
  {
  }

  /** A removed file takes its blocks with it; every other file keeps its blocks, its bytes and its counts. */
  lemma FileRemoved(bs: nat, d: Disk, d2: Disk, live: set<nat>, owner: map<nat, Pos>, ino: nat)
    requires BlockSizeOk(bs) && ino < |d.inodes| && d2 == Disk(d.blocks, d.inodes[ino := NO_INODE])
    requires TreeInv(bs / 4, d, live, owner) && ZeroTail(bs, d, live) && SizesOk(d, live)
      && SectorsOk(bs, d, live, owner)
    ensures TreeInv(bs / 4, d2, live - {ino}, owner - FileBlocks(owner, ino))
    ensures SameBytes(bs, d, d2, live - {ino})
    ensures ZeroTail(bs, d2, live - {ino}) && SizesOk(d2, live - {ino})
    ensures SectorsOk(bs, d2, live - {ino}, owner - FileBlocks(owner, ino))
  {
    hide At, PosOk, Leaf, BlockOf, ByteAt, FilePos;
    DropFile(bs / 4, d, d2, live, owner, ino);
    hide TreeInv;
    SameBlockSameBytes(bs, d, d2, live - {ino});
    ZeroTailSub(bs, d, live, ino);
    ZeroTailKept(bs, d, d2, live - {ino});
    forall i | i != ino
      ensures FileBlocks(owner - FileBlocks(owner, ino), i) == FileBlocks(owner, i)
    {
    }
  }

  lemma ZeroTailSub(bs: nat, d: Disk, live: set<nat>, ino: nat)
    requires BlockSizeOk(bs) && ZeroTail(bs, d, live)
    ensures ZeroTail(bs, d, live - {ino})
  {
  }
}
