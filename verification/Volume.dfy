/** The mounted volume: device contents, group descriptors, bitmaps and superblock counters, with the two allocators. */
module Volumes {
  import opened Bytes
  import opened Bitmap
  import opened Layout
  import opened Accounting
  import opened Tree
  import opened Contents

  /** The counters of a block group descriptor. */
  datatype GroupDesc = GroupDesc(freeBlocks: nat, freeInodes: nat, usedDirs: nat)

  const EXT2_S_IFREG: bv16 := 0x8000
  const EXT2_S_IFDIR: bv16 := 0x4000

  predicate IsReg(mode: bv16) { mode & EXT2_S_IFREG != 0 }
  predicate IsDir(mode: bv16) { mode & EXT2_S_IFDIR != 0 }

  /** An i_block array without a block. */
  function NoBlockNumbers(): (r: seq<nat>)
    ensures |r| == SLOTS && forall s | 0 <= s < SLOTS :: r[s] == 0
  {
    seq(SLOTS, i => 0)
  }

  const NO_INODE: Inode := Inode(0, 0, 0, 0, NoBlockNumbers())

  function BlockCounts(groups: seq<GroupDesc>): seq<nat> {
    seq(|groups|, g requires 0 <= g < |groups| => groups[g].freeBlocks)
  }

  function InodeCounts(groups: seq<GroupDesc>): seq<nat> {
    seq(|groups|, g requires 0 <= g < |groups| => groups[g].freeInodes)
  }

  /** bg_used_dirs_count of all groups. */
  function DirCounts(groups: seq<GroupDesc>): seq<nat> {
    seq(|groups|, g requires 0 <= g < |groups| => groups[g].usedDirs)
  }

  /** The directory count of the group of inode ino has gone up by one, modulo 2^16, if the inode is a directory. */
  ghost predicate DirCountedUp(geo: Geometry, counts: seq<nat>, counts': seq<nat>, ino: nat, isDir: bool) {
    && geo.Ok() && geo.IsInode(ino) && geo.InodeGroup(ino) < |counts|
    && counts' == if isDir then counts[geo.InodeGroup(ino) := (counts[geo.InodeGroup(ino)] + 1) % 0x1_0000]
         else counts
  }

  /** ... or down by one. */
  ghost predicate DirCountedDown(geo: Geometry, counts: seq<nat>, counts': seq<nat>, ino: nat, isDir: bool) {
    && geo.Ok() && geo.IsInode(ino) && geo.InodeGroup(ino) < |counts|
    && counts' == if isDir then counts[geo.InodeGroup(ino) := (counts[geo.InodeGroup(ino)] + 0xFFFF) % 0x1_0000]
         else counts
  }

  /** The data blocks of a volume as a space of numbers. */
  function BlockSpace(geo: Geometry): (s: Space)
    requires geo.blockSize > 0 && geo.blocksPerGroup > 0 && |geo.inodeTable| == geo.Groups()
    ensures |s| == geo.Groups()
  {
    seq(geo.Groups(), (g: nat) requires g < geo.Groups() => Run(geo.FirstBit(g), geo.LastBit(g), geo.GroupStart(g)))
  }

  function InodeSpace(geo: Geometry): (s: Space)
    requires geo.blocksPerGroup > 0
    ensures |s| == geo.Groups()
  {
    seq(geo.Groups(), (g: nat) requires g < geo.Groups() => Run(0, geo.inodesPerGroup - 1, geo.InodeNo(g, 0)))
  }

  lemma BlockCell(geo: Geometry, g: nat, i: nat)
    requires geo.Ok()
    ensures Cell(BlockSpace(geo), g, i) <==> geo.DataBit(g, i)
    ensures geo.DataBit(g, i) ==>
      && i < 8 * geo.blockSize
      && Number(BlockSpace(geo), g, i) == geo.BlockNo(g, i)
      && geo.DataBlock(geo.BlockNo(g, i))
      && geo.GroupOf(geo.BlockNo(g, i)) == g && geo.BitOf(geo.BlockNo(g, i)) == i
  {
    hide Geometry.GroupOf, Geometry.BitOf, Geometry.Groups, Geometry.LastBit, Geometry.FirstBit, Geometry.BlockNo;
    if geo.DataBit(g, i) {
      DataBitBounds(geo, g, i);
      BlockAddressInverse(geo, g, i);
    }
  }

  lemma BlockNumbered(geo: Geometry, b: nat)
    requires geo.Ok()
    ensures Numbered(BlockSpace(geo), b) <==> geo.DataBlock(b)
  {
    hide Geometry.GroupOf, Geometry.Groups, Geometry.LastBit, Geometry.FirstBit, Geometry.BlockNo, Cell;
    if geo.DataBlock(b) {
      BlockAddressOf(geo, b);
      BlockCell(geo, geo.GroupOf(b), geo.BitOf(b));
    }
    if g: nat, i: nat :| Cell(BlockSpace(geo), g, i) && Number(BlockSpace(geo), g, i) == b {
      BlockCell(geo, g, i);
    }
  }

  lemma BlockSpaceOk(geo: Geometry)
    requires geo.Ok()
    ensures SpaceOk(BlockSpace(geo), geo.blockSize)
  {
    hide Geometry.GroupOf, Geometry.BitOf, Geometry.Groups, Geometry.LastBit, Geometry.FirstBit, Geometry.BlockNo,
      Geometry.DataBlock, Cell;
    forall g: nat, i: nat | Cell(BlockSpace(geo), g, i)
      ensures i < 8 * geo.blockSize && geo.DataBit(g, i) && Number(BlockSpace(geo), g, i) == geo.BlockNo(g, i)
      ensures geo.GroupOf(geo.BlockNo(g, i)) == g && geo.BitOf(geo.BlockNo(g, i)) == i
    {
      BlockCell(geo, g, i);
    }
  }

  lemma InodeCell(geo: Geometry, g: nat, i: nat)
    requires geo.Ok()
    ensures Cell(InodeSpace(geo), g, i) <==> g < geo.Groups() && i < geo.inodesPerGroup
    ensures g < geo.Groups() && i < geo.inodesPerGroup ==>
      && i < 8 * geo.blockSize
      && Number(InodeSpace(geo), g, i) == geo.InodeNo(g, i)
      && geo.IsInode(geo.InodeNo(g, i))
      && geo.InodeGroup(geo.InodeNo(g, i)) == g && geo.InodeBit(geo.InodeNo(g, i)) == i
  {
    hide Geometry.InodeGroup, Geometry.InodeBit, Geometry.IsInode, Geometry.Groups;
    if g < geo.Groups() && i < geo.inodesPerGroup {
      InodeAddressInverse(geo, g, i);
    }
  }

  lemma InodeNumbered(geo: Geometry, ino: nat)
    requires geo.Ok()
    ensures Numbered(InodeSpace(geo), ino) <==> geo.IsInode(ino)
  {
    hide Geometry.InodeGroup, Geometry.InodeBit, Geometry.InodeNo, Geometry.Groups, Cell;
    if geo.IsInode(ino) {
      InodeAddressOf(geo, ino);
      InodeCell(geo, geo.InodeGroup(ino), geo.InodeBit(ino));
    }
    if g: nat, i: nat :| Cell(InodeSpace(geo), g, i) && Number(InodeSpace(geo), g, i) == ino {
      InodeCell(geo, g, i);
    }
  }

  lemma InodeSpaceOk(geo: Geometry)
    requires geo.Ok()
    ensures SpaceOk(InodeSpace(geo), geo.blockSize)
  {
    hide Geometry.InodeGroup, Geometry.InodeBit, Geometry.InodeNo, Geometry.Groups, Cell;
    forall g: nat, i: nat | Cell(InodeSpace(geo), g, i)
      ensures i < 8 * geo.blockSize && Number(InodeSpace(geo), g, i) == geo.InodeNo(g, i)
      ensures g < geo.Groups() && i < geo.inodesPerGroup
      ensures geo.InodeGroup(geo.InodeNo(g, i)) == g && geo.InodeBit(geo.InodeNo(g, i)) == i
    {
      InodeCell(geo, g, i);
    }
  }

  ghost predicate InodeBitsOk(geo: Geometry, bits: seq<Bits>, counts: seq<nat>, live: set<nat>,
                              padding: set<(nat, nat)>, freeInodes: nat)
    requires geo.Ok()
  {
    && Accounted(InodeSpace(geo), geo.blockSize, bits, counts, live, padding)
    && freeInodes == Sum(counts)
  }

  lemma FirstFreeIsFree(space: Space, taken: set<nat>, goal: nat, g: nat, i: nat)
    requires FirstFree(space, taken, goal, g, i)
    ensures Free(space, taken, g, i)
  {
  }

  // ---- a volume on which nothing is marked ----

  function ClearBitmaps(groups: nat, bytes: nat): (r: seq<Bits>)
    ensures |r| == groups && forall g | 0 <= g < groups :: |r[g]| == bytes && forall j | 0 <= j < bytes :: r[g][j] == 0
  {
    seq(groups, g => seq(bytes, j => 0))
  }

  /** How many bits a run has. */
  function RunSize(r: Run): nat {
    if r.first <= r.last then r.last - r.first + 1 else 0
  }

  function EmptyGroups(geo: Geometry): (r: seq<GroupDesc>)
    requires geo.blockSize > 0 && geo.blocksPerGroup > 0 && |geo.inodeTable| == geo.Groups()
    ensures |r| == geo.Groups()
  {
    seq(geo.Groups(), (g: nat) requires g < geo.Groups() =>
      GroupDesc(RunSize(BlockSpace(geo)[g]), RunSize(InodeSpace(geo)[g]), 0))
  }

  lemma {:induction false} IntervalSize(first: nat, last: int, s: set<nat>)
    requires forall i: nat :: i in s <==> first <= i <= last
    ensures |s| == if first <= last then last - first + 1 else 0
    decreases last - first
  {
    if first <= last {
      IntervalSize(first, last - 1, s - {last});
    } else {
      assert s == {};
    }
  }

  lemma EmptyCounts(space: Space, bytes: nat, counts: seq<nat>)
    requires |counts| == |space| && forall g | 0 <= g < |space| :: space[g].first >= 0 && counts[g] == RunSize(space[g])
    ensures Accounted(space, bytes, ClearBitmaps(|space|, bytes), counts, {}, {})
  {
    forall g | 0 <= g < |space|
      ensures counts[g] == |FreeBits(space, {}, g)|
    {
      IntervalSize(space[g].first, space[g].last, FreeBits(space, {}, g));
    }
  }

  lemma EmptyAccounts(geo: Geometry)
    requires geo.Ok()
    ensures Accounted(BlockSpace(geo), geo.blockSize, ClearBitmaps(geo.Groups(), geo.blockSize),
                      BlockCounts(EmptyGroups(geo)), {}, {})
    ensures InodeBitsOk(geo, ClearBitmaps(geo.Groups(), geo.blockSize), InodeCounts(EmptyGroups(geo)), {}, {},
                        Sum(InodeCounts(EmptyGroups(geo))))
  {
    hide Accounted, Geometry.Groups, Geometry.LastBit, Geometry.FirstBit;
    EmptyCounts(BlockSpace(geo), geo.blockSize, BlockCounts(EmptyGroups(geo)));
    EmptyCounts(InodeSpace(geo), geo.blockSize, InodeCounts(EmptyGroups(geo)));
  }

  lemma EmptyTrees(bs: nat, d: Disk)
    requires BlockSizeOk(bs)
    ensures TreeInv(bs / 4, d, {}, map[]) && SizesOk(d, {}) && SectorsOk(bs, d, {}, map[]) && ZeroTail(bs, d, {})
  {
  }

  lemma GeometryBlockSize(geo: Geometry)
    requires geo.Ok()
    ensures BlockSizeOk(geo.blockSize)
  {
  }

  class Volume {
    const geo: Geometry
    ghost const blockPadding: set<(nat, nat)>
    ghost const inodePadding: set<(nat, nat)>
    /** Blocks of the data ranges that are marked although no file has them: bad blocks, and the last bit when it was
        preset. */
    ghost const reserved: set<nat>

    var blocks: seq<Block>
    var inodes: seq<Inode>
    var groups: seq<GroupDesc>
    var blockBits: seq<Bits>
    var inodeBits: seq<Bits>
    var freeBlocks: nat
    var freeInodes: nat

    ghost var used: set<nat>
    ghost var live: set<nat>
    ghost var owner: map<nat, Pos>
    ghost var dirCounts: seq<nat>

    /** A volume without a file: just the reserved blocks are marked. */
    constructor (geo: Geometry, blockBits: seq<Bits>, groups: seq<GroupDesc>, ghost reserved: set<nat>)
      requires geo.Ok() && |groups| == geo.Groups() && InodeCounts(groups) == InodeCounts(EmptyGroups(geo))
      requires Accounted(BlockSpace(geo), geo.blockSize, blockBits, BlockCounts(groups), reserved, {})
      ensures Consistent() && this.geo == geo && live == {} && used == {} && owner == map[] && this.reserved == reserved
      ensures freeBlocks == Sum(BlockCounts(groups))
    {
      this.geo := geo;
      this.reserved, blockPadding, inodePadding := reserved, {}, {};
      blocks := seq(geo.BlockBound(), i => Zeros(geo.blockSize));
      inodes := seq(geo.InodeCount() + 1, i => NO_INODE);
      this.groups := groups;
      this.blockBits := blockBits;
      inodeBits := ClearBitmaps(geo.Groups(), geo.blockSize);
      freeBlocks := Sum(BlockCounts(groups));
      freeInodes := Sum(InodeCounts(groups));
      used, live, owner, dirCounts := {}, {}, map[], DirCounts(groups);
      new;
      hide Geometry.Ok;
      assert {} + reserved == reserved;
      EmptyAccounts(geo);
      NoInodeSlots();
      AccountedIntro(this);
      InodesIntro(this);
      EmptyTrees(geo.blockSize, D());
      GeometryBlockSize(geo);
      SoundIntro(this);
      ConsistentIs(this);
    }

    ghost function D(): Disk
      reads `blocks, `inodes
    {
      Disk(blocks, inodes)
    }

    /** The blocks whose bits are set in the data ranges. */
    ghost function Marked(): set<nat>
      reads `used
    {
      used + reserved
    }

    /** Block bitmaps and group counters agree with `Marked`; the superblock counter is not looked at. */
    ghost predicate BlocksAccounted()
      reads `blocks, `groups, `blockBits, `used, `dirCounts
    {
      && geo.Ok() && DirCounts(groups) == dirCounts
      && |blocks| == geo.BlockBound()
      && (forall b | 0 <= b < |blocks| :: |blocks[b]| == geo.blockSize)
      && used !! reserved
      && Accounted(BlockSpace(geo), geo.blockSize, blockBits, BlockCounts(groups), Marked(), blockPadding)
    }

    ghost predicate InodesAccounted()
      reads `inodes, `groups, `inodeBits, `live, `freeInodes
    {
      && geo.Ok()
      && |inodes| == geo.InodeCount() + 1
      && (forall i | 0 <= i < |inodes| :: |inodes[i].block| == SLOTS)
      && InodeBitsOk(geo, inodeBits, InodeCounts(groups), live, inodePadding, freeInodes)
    }

    ghost function LinksPerBlock(): nat {
      geo.blockSize / 4
    }

    /** Marked blocks are the reserved ones and exactly the blocks some live file reaches, each reached once, and every
        counter tells the truth. */
    ghost predicate Sound()
      reads this
    {
      && BlocksAccounted()
      && InodesAccounted()
      && freeBlocks == Sum(BlockCounts(groups))
      && used == owner.Keys
      && TreeInv(LinksPerBlock(), D(), live, owner)
      && SizesOk(D(), live)
      && SectorsOk(geo.blockSize, D(), live, owner)
    }

    /** The invariant of a volume between operations. Inside a write, bytes may lie past the recorded end of the
        file. */
    ghost predicate Consistent()
      reads this
    {
      Sound() && ZeroTail(geo.blockSize, D(), live)
    }

    /** allocate_block. */
    method AllocateBlock(goal: nat) returns (ok: bool, b: nat)
      requires BlocksAccounted()
      requires geo.firstDataBlock <= goal && geo.GroupOf(goal) < geo.Groups()
      modifies `blocks, `groups, `blockBits, `used
      ensures BlocksAccounted()
      ensures ok <==> AnyFree(BlockSpace(geo), old(Marked()))
      ensures InodeCounts(groups) == old(InodeCounts(groups))
      ensures !ok ==> unchanged(this)
      ensures ok ==>
        && geo.DataBlock(b)
        && FirstFree(BlockSpace(geo), old(Marked()), geo.GroupOf(goal), geo.GroupOf(b), geo.BitOf(b))
        && geo.GroupOf(b) < |old(blockBits)| && geo.BitOf(b) / 8 < |old(blockBits[geo.GroupOf(b)])|
        && blockBits == old(blockBits)[geo.GroupOf(b) := SetBit(old(blockBits)[geo.GroupOf(b)], geo.BitOf(b))]
        && BitAdded(old(blockBits)[geo.GroupOf(b)], blockBits[geo.GroupOf(b)], geo.BitOf(b))
        && 0 < b < |blocks| && b !in old(Marked())
        && used == old(used) + {b}
        && blocks == old(blocks)[b := Zeros(geo.blockSize)]
        && Sum(BlockCounts(groups)) + 1 == old(Sum(BlockCounts(groups)))
    {
      hide Geometry.GroupOf, Geometry.BitOf, Geometry.FirstBit, Geometry.LastBit, Geometry.Groups, Geometry.DataBlock,
        Geometry.BlockNo;
      hide SpaceOk, FirstFree, FreeBits, SetBit, BitAdded;
      ghost var space := BlockSpace(geo);
      var g, bit;
      ok, g, bit := FindFree(BlockSpace(geo), blockBits, geo.GroupOf(goal), Marked());
      if ok {
        assert Free(space, Marked(), g, bit) by { FirstFreeIsFree(space, Marked(), geo.GroupOf(goal), g, bit); }
        BlockCell(geo, g, bit);
        b := geo.BlockNo(g, bit);
        BlockAddressOf(geo, b);
        TakeBlock(g, bit);
        blocks := blocks[b := Zeros(geo.blockSize)];
      } else {
        b := 0;
      }
    }

    /** write_to_dev of one whole block. */
    method WriteBlock(b: nat, x: Block)
      requires BlocksAccounted() && b < |blocks| && |x| == geo.blockSize
      modifies `blocks
      ensures BlocksAccounted() && blocks == old(blocks)[b := x]
    {
      blocks := blocks[b := x];
    }

    /** The bitmap and descriptor update of allocate_block. */
    method TakeBlock(g: nat, bit: nat)
      requires BlocksAccounted() && geo.DataBit(g, bit) && Free(BlockSpace(geo), Marked(), g, bit)
      modifies `groups, `blockBits, `used
      ensures BlocksAccounted()
      ensures bit / 8 < |old(blockBits)[g]| && BitAdded(old(blockBits)[g], SetBit(old(blockBits)[g], bit), bit)
      ensures blockBits == old(blockBits)[g := SetBit(old(blockBits)[g], bit)]
      ensures used == old(used) + {geo.BlockNo(g, bit)}
      ensures InodeCounts(groups) == old(InodeCounts(groups))
      ensures Sum(BlockCounts(groups)) + 1 == old(Sum(BlockCounts(groups)))
    {
      hide Geometry.GroupOf, Geometry.BitOf, Geometry.FirstBit, Geometry.LastBit, Geometry.Groups, Geometry.DataBlock,
        Geometry.BlockNo;
      hide SpaceOk, FreeBits, SetBit, BitAdded;
      BlockSpaceOk(geo);
      BlockCell(geo, g, bit);
      ghost var marked := Marked();
      Take(BlockSpace(geo), geo.blockSize, blockBits, BlockCounts(groups), marked, blockPadding, g, bit);
      blockBits := blockBits[g := SetBit(blockBits[g], bit)];
      groups := groups[g := groups[g].(freeBlocks := groups[g].freeBlocks - 1)];
      used := used + {geo.BlockNo(g, bit)};
      assert Marked() == marked + {geo.BlockNo(g, bit)};
      assert DirCounts(groups) == DirCounts(old(groups));
      assert BlockCounts(groups) == BlockCounts(old(groups))[g := BlockCounts(old(groups))[g] - 1];
      assert InodeCounts(groups) == InodeCounts(old(groups));
    }

    /** deallocate_block. */
    method DeallocateBlock(b: nat)
      requires BlocksAccounted()
      requires b != 0 ==> b in used
      modifies `groups, `blockBits, `used, `freeBlocks
      ensures BlocksAccounted()
      ensures b == 0 ==> unchanged(this)
      ensures used == old(used) - {b}
      ensures InodeCounts(groups) == old(InodeCounts(groups))
      ensures b != 0 ==>
        && geo.DataBlock(b)
        && geo.GroupOf(b) < |old(blockBits)| && geo.BitOf(b) / 8 < |old(blockBits)[geo.GroupOf(b)]|
        && blockBits == old(blockBits)[geo.GroupOf(b) := ResetBit(old(blockBits)[geo.GroupOf(b)], geo.BitOf(b))]
        && BitAdded(blockBits[geo.GroupOf(b)], old(blockBits)[geo.GroupOf(b)], geo.BitOf(b))
        && freeBlocks == old(freeBlocks) + 1
        && Sum(BlockCounts(groups)) == old(Sum(BlockCounts(groups))) + 1
    {
      hide Geometry.GroupOf, Geometry.BitOf, Geometry.FirstBit, Geometry.LastBit, Geometry.Groups, Geometry.BlockNo;
      hide SpaceOk, FreeBits, ResetBit, Numbered, BitAdded;
      ghost var space := BlockSpace(geo);
      BlockNumbered(geo, b);
      if b == 0 {
        if geo.DataBlock(0) { BlockAddressOf(geo, 0); }
        return;
      }
      BlockAddressOf(geo, b);
      var g := geo.GroupOf(b);
      var bit := geo.BitOf(b);
      BlockCell(geo, g, bit);
      BlockSpaceOk(geo);
      assert geo.FirstBit(g) <= bit <= geo.LastBit(g);
      assert TestBit(blockBits[g], bit);
      ghost var marked := Marked();
      Give(space, geo.blockSize, blockBits, BlockCounts(groups), marked, blockPadding, g, bit);
      blockBits := blockBits[g := ResetBit(blockBits[g], bit)];
      groups := groups[g := groups[g].(freeBlocks := groups[g].freeBlocks + 1)];
      used := used - {b};
      assert Marked() == marked - {b};
      assert DirCounts(groups) == DirCounts(old(groups));
      freeBlocks := freeBlocks + 1;
      assert BlockCounts(groups) == BlockCounts(old(groups))[g := BlockCounts(old(groups))[g] + 1];
      assert InodeCounts(groups) == InodeCounts(old(groups));
    }

    /** The bitmap scan of allocate_new_inode. */
    method TakeInode(goal: nat, isDir: bool) returns (ok: bool, ino: nat)
      requires InodesAccounted() && goal < geo.Groups()
      modifies `groups, `inodeBits, `live, `freeInodes, `dirCounts
      ensures InodesAccounted()
      ensures ok <==> AnyFree(InodeSpace(geo), old(live))
      ensures BlockCounts(groups) == old(BlockCounts(groups)) && (old(BlocksAccounted()) ==> BlocksAccounted())
      ensures !ok ==> unchanged(this)
      ensures ok ==>
        && geo.IsInode(ino)
        && FirstFree(InodeSpace(geo), old(live), goal, geo.InodeGroup(ino), geo.InodeBit(ino))
        && geo.InodeGroup(ino) < |old(inodeBits)| && geo.InodeBit(ino) / 8 < |old(inodeBits)[geo.InodeGroup(ino)]|
        && inodeBits == old(inodeBits)[geo.InodeGroup(ino) := SetBit(old(inodeBits)[geo.InodeGroup(ino)],
                                                                     geo.InodeBit(ino))]
        && BitAdded(old(inodeBits)[geo.InodeGroup(ino)], inodeBits[geo.InodeGroup(ino)], geo.InodeBit(ino))
        && ino !in old(live) && live == old(live) + {ino}
        && freeInodes + 1 == old(freeInodes)
        && DirCountedUp(geo, old(DirCounts(groups)), DirCounts(groups), ino, isDir)
    {
      hide Geometry.InodeGroup, Geometry.InodeBit, Geometry.InodeNo, Geometry.IsInode, Geometry.Groups;
      hide SpaceOk, FirstFree, FreeBits, SetBit, BitAdded;
      var g, bit;
      ok, g, bit := FindFree(InodeSpace(geo), inodeBits, goal, live);
      if ok {
        FirstFreeIsFree(InodeSpace(geo), live, goal, g, bit);
        InodeCell(geo, g, bit);
        ino := geo.InodeNo(g, bit);
        MarkInode(g, bit, isDir);
      } else {
        ino := 0;
      }
    }

    /** The bitmap and descriptor update of allocate_new_inode. */
    method MarkInode(g: nat, bit: nat, isDir: bool)
      requires InodesAccounted() && g < geo.Groups() && Free(InodeSpace(geo), live, g, bit)
      modifies `groups, `inodeBits, `live, `freeInodes, `dirCounts
      ensures InodesAccounted()
      ensures BlockCounts(groups) == old(BlockCounts(groups)) && (old(BlocksAccounted()) ==> BlocksAccounted())
      ensures g < |old(inodeBits)| && bit / 8 < |old(inodeBits)[g]|
      ensures inodeBits == old(inodeBits)[g := SetBit(old(inodeBits)[g], bit)]
      ensures BitAdded(old(inodeBits)[g], inodeBits[g], bit)
      ensures live == old(live) + {geo.InodeNo(g, bit)} && freeInodes + 1 == old(freeInodes)
      ensures DirCountedUp(geo, old(DirCounts(groups)), DirCounts(groups), geo.InodeNo(g, bit), isDir)
    {
      hide Geometry.InodeGroup, Geometry.InodeBit, Geometry.InodeNo, Geometry.IsInode, Geometry.Groups;
      hide SpaceOk, FreeBits, SetBit, BitAdded;
      InodeCell(geo, g, bit);
      InodeSpaceOk(geo);
      Take(InodeSpace(geo), geo.blockSize, inodeBits, InodeCounts(groups), live, inodePadding, g, bit);
      inodeBits := inodeBits[g := SetBit(inodeBits[g], bit)];
      groups := groups[g := groups[g].(freeInodes := groups[g].freeInodes - 1,
                                       usedDirs := if isDir then (groups[g].usedDirs + 1) % 0x1_0000
                                         else groups[g].usedDirs)];
      live := live + {geo.InodeNo(g, bit)};
      freeInodes := freeInodes - 1;
      dirCounts := DirCounts(groups);
      assert InodeCounts(groups) == InodeCounts(old(groups))[g := InodeCounts(old(groups))[g] - 1];
      assert BlockCounts(groups) == BlockCounts(old(groups));
    }

    /** deallocate_inode; `isDir` is what the in-memory inode says when it is called. */
    method DeallocateInode(ino: nat, isDir: bool)
      requires InodesAccounted() && ino in live
      modifies `groups, `inodeBits, `live, `freeInodes, `dirCounts
      ensures InodesAccounted()
      ensures live == old(live) - {ino}
      ensures BlockCounts(groups) == old(BlockCounts(groups)) && (old(BlocksAccounted()) ==> BlocksAccounted())
      ensures geo.IsInode(ino)
      ensures geo.InodeGroup(ino) < |old(inodeBits)| && geo.InodeBit(ino) / 8 < |old(inodeBits)[geo.InodeGroup(ino)]|
      ensures inodeBits == old(inodeBits)[geo.InodeGroup(ino) := ResetBit(old(inodeBits)[geo.InodeGroup(ino)],
        geo.InodeBit(ino))]
      ensures BitAdded(inodeBits[geo.InodeGroup(ino)], old(inodeBits)[geo.InodeGroup(ino)], geo.InodeBit(ino))
      ensures freeInodes == old(freeInodes) + 1
      ensures DirCountedDown(geo, old(DirCounts(groups)), DirCounts(groups), ino, isDir)
    {
      hide Geometry.InodeGroup, Geometry.InodeBit, Geometry.InodeNo, Geometry.Groups;
      hide SpaceOk, FreeBits, ResetBit, Numbered, BitAdded;
      ghost var space := InodeSpace(geo);
      InodeNumbered(geo, ino);
      InodeAddressOf(geo, ino);
      var g := geo.InodeGroup(ino);
      var bit := geo.InodeBit(ino);
      InodeCell(geo, g, bit);
      InodeSpaceOk(geo);
      assert TestBit(inodeBits[g], bit);
      Give(space, geo.blockSize, inodeBits, InodeCounts(groups), live, inodePadding, g, bit);
      inodeBits := inodeBits[g := ResetBit(inodeBits[g], bit)];
      groups := groups[g := groups[g].(freeInodes := groups[g].freeInodes + 1,
                                       usedDirs := if isDir then (groups[g].usedDirs + 0xFFFF) % 0x1_0000
                                         else groups[g].usedDirs)];
      live := live - {ino};
      freeInodes := freeInodes + 1;
      dirCounts := DirCounts(groups);
      assert InodeCounts(groups) == InodeCounts(old(groups))[g := InodeCounts(old(groups))[g] + 1];
      assert BlockCounts(groups) == BlockCounts(old(groups));
    }
  }

  /** What Sound says, one clause at a time ... */
  lemma SoundFacts(v: Volume)
    requires v.Sound()
    ensures v.geo.Ok() && BlockSizeOk(v.geo.blockSize) && v.LinksPerBlock() == v.geo.blockSize / 4
    ensures v.BlocksAccounted() && v.InodesAccounted()
    ensures |v.inodes| == v.geo.InodeCount() + 1
    ensures forall i | 0 <= i < |v.inodes| :: |v.inodes[i].block| == SLOTS
    ensures InodeBitsOk(v.geo, v.inodeBits, InodeCounts(v.groups), v.live, v.inodePadding, v.freeInodes)
    ensures v.freeBlocks == Sum(BlockCounts(v.groups)) && v.used == v.owner.Keys
    ensures TreeInv(v.geo.blockSize / 4, v.D(), v.live, v.owner)
    ensures SizesOk(v.D(), v.live)
    ensures forall i | i in v.live :: 0 < i < |v.inodes| && v.geo.IsInode(i)
    ensures SectorsOk(v.geo.blockSize, v.D(), v.live, v.owner)
    ensures v.D() == Disk(v.blocks, v.inodes) && v.dirCounts == DirCounts(v.groups)
  {
    forall i | i in v.live ensures 0 < i < |v.inodes| && v.geo.IsInode(i) { InodeNumbered(v.geo, i); }
  }

  lemma ConsistentIs(v: Volume)
    ensures v.Consistent() ==> v.Sound() && BlockSizeOk(v.geo.blockSize) && ZeroTail(v.geo.blockSize, v.D(), v.live)
    ensures v.Sound() && BlockSizeOk(v.geo.blockSize) && ZeroTail(v.geo.blockSize, v.D(), v.live) ==> v.Consistent()
  {
  }

  /** ... and how it is put together again. */
  lemma SoundIntro(v: Volume)
    requires v.geo.Ok() && BlockSizeOk(v.geo.blockSize)
    requires v.BlocksAccounted()
    requires |v.inodes| == v.geo.InodeCount() + 1
    requires forall i | 0 <= i < |v.inodes| :: |v.inodes[i].block| == SLOTS
    requires InodeBitsOk(v.geo, v.inodeBits, InodeCounts(v.groups), v.live, v.inodePadding, v.freeInodes)
    requires v.freeBlocks == Sum(BlockCounts(v.groups)) && v.used == v.owner.Keys
    requires TreeInv(v.geo.blockSize / 4, v.D(), v.live, v.owner)
    requires SizesOk(v.D(), v.live)
    requires SectorsOk(v.geo.blockSize, v.D(), v.live, v.owner)
    ensures v.Sound()
  {
  }

  lemma AccountedFacts(v: Volume)
    requires v.BlocksAccounted()
    ensures v.geo.Ok() && |v.blocks| == v.geo.BlockBound() && v.used !! v.reserved
    ensures v.dirCounts == DirCounts(v.groups)
    ensures forall b | 0 <= b < |v.blocks| :: |v.blocks[b]| == v.geo.blockSize
    ensures Accounted(BlockSpace(v.geo), v.geo.blockSize, v.blockBits, BlockCounts(v.groups), v.used + v.reserved,
                      v.blockPadding)
  {
  }

  lemma AccountedIntro(v: Volume)
    requires v.geo.Ok() && |v.blocks| == v.geo.BlockBound() && v.used !! v.reserved
    requires v.dirCounts == DirCounts(v.groups)
    requires forall b | 0 <= b < |v.blocks| :: |v.blocks[b]| == v.geo.blockSize
    requires Accounted(BlockSpace(v.geo), v.geo.blockSize, v.blockBits, BlockCounts(v.groups), v.used + v.reserved,
                       v.blockPadding)
    ensures v.BlocksAccounted()
  {
  }

  lemma InodesFacts(v: Volume)
    requires v.InodesAccounted()
    ensures v.geo.Ok() && |v.inodes| == v.geo.InodeCount() + 1
    ensures forall i | 0 <= i < |v.inodes| :: |v.inodes[i].block| == SLOTS
    ensures InodeBitsOk(v.geo, v.inodeBits, InodeCounts(v.groups), v.live, v.inodePadding, v.freeInodes)
  {
  }

  lemma InodesIntro(v: Volume)
    requires v.geo.Ok() && |v.inodes| == v.geo.InodeCount() + 1
    requires forall i | 0 <= i < |v.inodes| :: |v.inodes[i].block| == SLOTS
    requires InodeBitsOk(v.geo, v.inodeBits, InodeCounts(v.groups), v.live, v.inodePadding, v.freeInodes)
    ensures v.InodesAccounted()
  {
  }

  lemma GroupsLength(v: Volume)
    requires v.InodesAccounted()
    ensures v.geo.Ok() && |v.groups| == v.geo.Groups()
  {
  }

  lemma NoInodeSlots()
    ensures |NO_INODE.block| == SLOTS && NO_INODE.size == 0 && NO_INODE.mode == 0 && !IsDir(NO_INODE.mode)
  {
  }

  /** Blocks move between the free ones and the files, and nowhere else. */
  lemma FreePlusOwned(v: Volume)
    requires v.Sound()
    ensures v.geo.Ok()
    ensures v.freeBlocks + |v.owner| + |v.reserved| == |Numbers(BlockSpace(v.geo), |BlockSpace(v.geo)|)|
  {
    hide *;
    SoundFacts(v);
    AccountedFacts(v);
    BlockSpaceOk(v.geo);
    var space := BlockSpace(v.geo);
    CountersAreClearBits(space, v.geo.blockSize, v.blockBits, BlockCounts(v.groups), v.used + v.reserved,
                         v.blockPadding);
    ThreeParts(Numbers(space, |space|), v.used, v.reserved);
    assert |v.owner.Keys| == |v.owner|;
  }

  lemma ThreeParts(all: set<nat>, a: set<nat>, b: set<nat>)
    requires a + b <= all && a !! b
    ensures |all - (a + b)| + |a| + |b| == |all|
  {
    assert all == (all - (a + b)) + (a + b);
  }

  lemma LinksAre(v: Volume)
    requires v.geo.Ok()
    ensures v.LinksPerBlock() == v.geo.blockSize / 4 && BlockSizeOk(v.geo.blockSize)
  {
  }

  lemma InodeBitsAre(v: Volume)
    requires v.InodesAccounted()
    ensures v.geo.Ok() && v.freeInodes == Sum(InodeCounts(v.groups))
    ensures Accounted(InodeSpace(v.geo), v.geo.blockSize, v.inodeBits, InodeCounts(v.groups), v.live, v.inodePadding)
  {
  }

  lemma VolumeDisk(v: Volume)
    ensures v.D() == Disk(v.blocks, v.inodes)
  {
  }
}
