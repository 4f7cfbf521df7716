/** allocate_new_inode, and what it takes for handles on other files to stay open. */
module NewInodes {
  import opened Layout
  import opened Accounting
  import opened Tree
  import opened Contents
  import opened Volumes
  import opened FileHandles

  /** A cursor on another file survives what is done to file ino. */
  lemma CursorUntouched(bs: nat, d: Disk, d': Disk, live: set<nat>, owner: map<nat, Pos>, ino: nat, i: nat, it: Cursor)
    requires BlockSizeOk(bs) && TreeInv(bs / 4, d, live, owner) && CursorOk(bs, d, i, it)
    requires i in live && i != ino && Untouched(bs / 4, d, d', live, owner, ino)
    ensures CursorOk(bs, d', i, it)
  {
    hide At, PosOk, CursorOk;
    CursorKept(bs, d, d', live, i, it);
  }

  lemma StaysOpen(v: Volume, g: FileHandle, d: Disk, owner: map<nat, Pos>, ino: nat)
    requires v.Sound() && BlockSizeOk(v.geo.blockSize)
    requires g.ino in v.live && g.ino != ino && g.ino < |v.inodes| && g.inode == v.inodes[g.ino]
    requires g.pbgdIndex == v.geo.InodeGroup(g.ino) < v.geo.Groups()
    requires CursorOk(v.geo.blockSize, d, g.ino, g.it) && TreeInv(v.geo.blockSize / 4, d, v.live, owner)
    requires Untouched(v.geo.blockSize / 4, d, v.D(), v.live, owner, ino)
    ensures Open(v, g)
  {
    CursorUntouched(v.geo.blockSize, d, v.D(), v.live, owner, ino, g.ino, g.it);
    SoundFacts(v);
  }

  /** The inode record allocate_new_inode writes: no blocks, no size and no links yet. */
  function FreshInode(mode: bv16): Inode {
    Inode(mode, 0, 0, 0, NoBlockNumbers())
  }

  lemma FreshInodeEmpty(mode: bv16)
    ensures |FreshInode(mode).block| == SLOTS && FreshInode(mode).size == 0 && FreshInode(mode).iblocks == 0
    ensures FreshInode(mode).links == 0 && FreshInode(mode).mode == mode
    ensures forall s | 0 <= s < SLOTS :: FreshInode(mode).block[s] == 0
  {
  }

  /** ino is the inode that a file in directory dir is given: the first free one from dir's group on. */
  ghost predicate InodeChosen(geo: Geometry, live: set<nat>, dir: nat, ino: nat) {
    && geo.Ok() && geo.IsInode(dir) && geo.IsInode(ino)
    && FirstFree(InodeSpace(geo), live, geo.InodeGroup(dir), geo.InodeGroup(ino), geo.InodeBit(ino))
  }

  lemma InodeChosenIntro(geo: Geometry, live: set<nat>, dir: nat, ino: nat)
    requires geo.Ok() && geo.IsInode(dir) && geo.IsInode(ino)
    requires FirstFree(InodeSpace(geo), live, geo.InodeGroup(dir), geo.InodeGroup(ino), geo.InodeBit(ino))
    ensures InodeChosen(geo, live, dir, ino)
  {
    hide FirstFree, Geometry.Ok, Geometry.IsInode;
  }

  /** allocate_new_inode: fills the handle with a new empty file, unless no inode is free. */
  method AllocateNewInode(v: Volume, h: FileHandle, goal: nat, imode: bv16) returns (ok: bool)
    requires v.Consistent() && goal < v.geo.Groups()
    modifies v`inodes, v`groups, v`inodeBits, v`live, v`freeInodes, v`dirCounts, h
    ensures v.Consistent()
    ensures v.geo.Ok() && (ok <==> AnyFree(InodeSpace(v.geo), old(v.live)))
    ensures !ok ==> unchanged(v) && unchanged(h)
    ensures ok ==>
      && Open(v, h) && h.pbgd == v.groups[h.pbgdIndex]
      && h.ino !in old(v.live) && v.live == old(v.live) + {h.ino}
      && 0 < h.ino < |old(v.inodes)| && v.inodes == old(v.inodes)[h.ino := FreshInode(imode)]
      && FileBlocks(v.owner, h.ino) == {} && OwnersBut(v.owner, h.ino) == v.owner
      && BlockSizeOk(v.geo.blockSize) && SameBytes(v.geo.blockSize, old(v.D()), v.D(), old(v.live))
      && Untouched(v.geo.blockSize / 4, old(v.D()), v.D(), old(v.live), v.owner, h.ino)
      && v.freeInodes + 1 == old(v.freeInodes)
    ensures ok ==>
      FirstFree(InodeSpace(v.geo), old(v.live), goal, v.geo.InodeGroup(h.ino), v.geo.InodeBit(h.ino))
    ensures ok ==> DirCountedUp(v.geo, old(v.dirCounts), v.dirCounts, h.ino, IsDir(imode))
  {
    hide *;
    ConsistentIs(v);
    SoundFacts(v);
    ghost var d, live := v.D(), v.live;
    var ino;
    ok, ino := v.TakeInode(goal, IsDir(imode));
    if !ok {
      return;
    }
    AccountedFacts(v);
    InodesFacts(v);
    GroupsLength(v);
    InodeInTable(v.geo, ino);
    FreshInodeEmpty(imode);
    h.ino := ino;
    h.pbgdIndex := v.geo.InodeGroup(ino);
    h.pbgd := v.groups[h.pbgdIndex];
    h.inode := FreshInode(imode);
    WriteInode(v, h);
    VolumeDisk(v);
    DiskOfIs(v, h);
    assert v.inodes[h.ino := h.inode] == v.inodes;
    NewFile(v.geo.blockSize, d, v.D(), live, v.owner, ino, imode);
    LinksAre(v);
    CursorInit(v, h, 0);
    VolumeDisk(v);
    assert DiskOf(v, h) == v.D() by { DiskOfIs(v, h); }
    SoundIntro(v);
    ConsistentIs(v);
    OpenIntro(v, h);
  }

  lemma InodeInTable(geo: Geometry, ino: nat)
    requires geo.Ok() && geo.IsInode(ino)
    ensures geo.inodesPerGroup > 0 && 0 < ino < geo.InodeCount() + 1 && geo.InodeGroup(ino) < geo.Groups()
  {
    InodeAddressOf(geo, ino);
  }

  /** A new empty file takes its place beside the others without disturbing them. */
  lemma NewFile(bs: nat, d: Disk, d2: Disk, live: set<nat>, owner: map<nat, Pos>, ino: nat, mode: bv16)
    requires BlockSizeOk(bs) && ino < |d.inodes| && ino !in live
    requires d2 == Disk(d.blocks, d.inodes[ino := FreshInode(mode)])
    requires TreeInv(bs / 4, d, live, owner) && ZeroTail(bs, d, live) && SizesOk(d, live)
      && SectorsOk(bs, d, live, owner)
    ensures TreeInv(bs / 4, d2, live + {ino}, owner)
    ensures ZeroTail(bs, d2, live + {ino}) && SizesOk(d2, live + {ino}) && SectorsOk(bs, d2, live + {ino}, owner)
    ensures FileBlocks(owner, ino) == {} && OwnersBut(owner, ino) == owner
    ensures SameBytes(bs, d, d2, live) && Untouched(bs / 4, d, d2, live, owner, ino)
  {
    hide At, PosOk, Leaf, BlockOf, ByteAt, FilePos;
    AddFile(bs / 4, d, d2, live, owner, ino);
    SameBlockSameBytes(bs, d, d2, live);
    EmptyFile(bs, d2, ino);
    forall b | b in owner
      ensures InoOf(owner[b]) != ino
    {
    }
    NewFileCounts(bs, d, d2, live, owner, ino, mode);
    NewFileTail(bs, d, d2, live, ino, mode);
  }

  lemma NewFileCounts(bs: nat, d: Disk, d2: Disk, live: set<nat>, owner: map<nat, Pos>, ino: nat, mode: bv16)
    requires ino < |d.inodes| && ino !in live && d2 == Disk(d.blocks, d.inodes[ino := FreshInode(mode)])
    requires SizesOk(d, live) && SectorsOk(bs, d, live, owner)
    requires forall b | b in owner :: InoOf(owner[b]) != ino
    ensures SizesOk(d2, live + {ino}) && SectorsOk(bs, d2, live + {ino}, owner)
    ensures FileBlocks(owner, ino) == {} && OwnersBut(owner, ino) == owner
  {
    FreshInodeEmpty(mode);
  }

  lemma NewFileTail(bs: nat, d: Disk, d2: Disk, live: set<nat>, ino: nat, mode: bv16)
    requires BlockSizeOk(bs) && ino < |d.inodes| && ino !in live && d2.inodes == d.inodes[ino := FreshInode(mode)]
    requires SameBytes(bs, d, d2, live) && ZeroTail(bs, d, live)
    requires forall off: nat :: ByteAt(bs, d2, ino, off) == 0
    ensures ZeroTail(bs, d2, live + {ino})
  {
    hide ByteAt;
    forall i, off: nat | i in live + {ino} && SizeOf(d2, i) <= off
      ensures ByteAt(bs, d2, i, off) == 0
    {
      if i != ino { assert SizeOf(d2, i) == SizeOf(d, i); }
    }
  }
}
