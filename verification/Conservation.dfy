/** What a consistent volume conserves: every counter is the number of clear bits, the marked blocks are the reachable
    ones, and a file that is created, written and unlinked leaves nothing in the bitmaps and counters but the blocks its
    directory grew by. */
module Conservation {
  import opened Bytes
  import opened Bitmap
  import opened Layout
  import opened Accounting
  import opened Tree
  import opened Contents
  import opened Volumes
  import opened FileIO
  import opened Spaces
  import opened DirRecords
  import opened RecordBytes
  import opened DirStores
  import opened Directories
  import opened Unlinking
  import opened Names
  import opened Operations
  import opened FileHandles
  import opened NewInodes
  import opened Namespace

  /** The marked blocks are the reserved ones and exactly the blocks that some live file reaches. */
  lemma MarkedIsReachable(v: Volume, b: nat)
    requires v.Consistent()
    ensures b in v.Marked() <==>
      b in v.reserved || (b != 0 && exists p :: Place(v.geo.blockSize / 4, v.live, p) && At(v.D(), p) == b)
  {
    hide *;
    ConsistentIs(v);
    SoundFacts(v);
    Reachable(v.geo.blockSize / 4, v.D(), v.live, v.owner, b);
    assert v.Marked() == v.used + v.reserved by { MarkedIs(v); }
  }

  lemma MarkedIs(v: Volume)
    ensures v.Marked() == v.used + v.reserved
  {
  }

  /** The same of the bitmap itself: the bit of a data block is set exactly when it is reserved or some live file
      reaches it. */
  lemma BitIsReachable(v: Volume, b: nat)
    requires v.Consistent() && v.geo.DataBlock(b)
    ensures v.geo.GroupOf(b) < |v.blockBits| && v.geo.BitOf(b) >= 0
    ensures TestBit(v.blockBits[v.geo.GroupOf(b)], v.geo.BitOf(b)) <==>
      b in v.reserved || exists p :: Place(v.geo.blockSize / 4, v.live, p) && At(v.D(), p) == b
  {
    BitIsOwned(v, b);
    hide *;
    ConsistentIs(v);
    SoundFacts(v);
    Reachable(v.geo.blockSize / 4, v.D(), v.live, v.owner, b);
    BlockAddressOf(v.geo, b);
  }

  lemma BitIsOwned(v: Volume, b: nat)
    requires v.Consistent() && v.geo.DataBlock(b)
    ensures v.geo.firstDataBlock <= b && v.geo.GroupOf(b) < |v.blockBits| && v.geo.BitOf(b) >= 0
    ensures TestBit(v.blockBits[v.geo.GroupOf(b)], v.geo.BitOf(b)) <==> b in v.reserved || b in v.owner
  {
    assert v.geo.firstDataBlock <= b && v.geo.BitOf(b) >= 0;
    hide *;
    ConsistentIs(v);
    SoundFacts(v);
    AccountedFacts(v);
    BlockAddressOf(v.geo, b);
    BlockCell(v.geo, v.geo.GroupOf(b), v.geo.BitOf(b));
    BitsOf(BlockSpace(v.geo), v.geo.blockSize, v.blockBits, BlockCounts(v.groups), v.used + v.reserved, v.blockPadding,
           v.geo.GroupOf(b), v.geo.BitOf(b));
  }

  /** An inode is live exactly when its bit is set. */
  lemma LiveBit(v: Volume, ino: nat)
    requires v.Sound()
    ensures v.geo.Ok() && v.geo.blocksPerGroup > 0 && v.geo.inodesPerGroup > 0
    ensures v.geo.IsInode(ino) ==>
      && ino > 0 && v.geo.InodeGroup(ino) < |v.inodeBits|
      && (TestBit(v.inodeBits[v.geo.InodeGroup(ino)], v.geo.InodeBit(ino)) <==> ino in v.live)
    ensures ino in v.live ==> v.geo.IsInode(ino)
  {
    SoundFacts(v);
    assert v.geo.blocksPerGroup > 0 && v.geo.inodesPerGroup > 0;
    hide *;
    InodeBitsAre(v);
    if v.geo.IsInode(ino) {
      InodeInTable(v.geo, ino);
      InodeAddressOf(v.geo, ino);
      InodeCell(v.geo, v.geo.InodeGroup(ino), v.geo.InodeBit(ino));
      BitsOf(InodeSpace(v.geo), v.geo.blockSize, v.inodeBits, InodeCounts(v.groups), v.live, v.inodePadding,
             v.geo.InodeGroup(ino), v.geo.InodeBit(ino));
    }
  }

  lemma BitsOf(space: Space, bytes: nat, bits: seq<Bits>, counts: seq<nat>, taken: set<nat>, padding: set<(nat, nat)>,
               g: nat, i: nat)
    requires Accounted(space, bytes, bits, counts, taken, padding) && Cell(space, g, i)
    ensures g < |bits| && (TestBit(bits[g], i) <==> Number(space, g, i) in taken)
  {
  }

  lemma Reachable(links: nat, d: Disk, live: set<nat>, owner: map<nat, Pos>, b: nat)
    requires TreeInv(links, d, live, owner)
    ensures b in owner <==> b != 0 && exists p :: Place(links, live, p) && At(d, p) == b
  {
    if b in owner { assert Place(links, live, owner[b]) && At(d, owner[b]) == b; }
  }

  /** With the blocks behind the device reserved, as a preset last bit reserves them, no file has a block that is not
      there. */
  lemma FilesOnDevice(v: Volume, b: nat)
    requires v.Consistent() && b in v.used
    requires forall x | v.geo.blocksCount <= x < v.geo.BlockBound() && v.geo.DataBlock(x) :: x in v.reserved
    ensures 0 < b < v.geo.blocksCount
  {
    hide *;
    ConsistentIs(v);
    SoundFacts(v);
    AccountedFacts(v);
    TakenNumbered(BlockSpace(v.geo), v.geo.blockSize, v.blockBits, BlockCounts(v.groups), v.used + v.reserved,
                  v.blockPadding, b);
    BlockNumbered(v.geo, b);
    BlockAddressOf(v.geo, b);
  }

  lemma TakenNumbered(space: Space, bytes: nat, bits: seq<Bits>, counts: seq<nat>, taken: set<nat>,
                      padding: set<(nat, nat)>, n: nat)
    requires Accounted(space, bytes, bits, counts, taken, padding) && n in taken
    ensures Numbered(space, n)
  {
  }

  /** What every snapshot of a consistent volume says of its blocks, bitmaps and counters: a block has an owner exactly
      when some live file reaches it, no two places hold the same block, a block's bit is set exactly when it is
      reserved or owned and an inode's exactly when it is live, each superblock counter, the sum of the groups' and the
      number of what is free are the same, and i_blocks counts each file's blocks. */
  ghost predicate Conserved(geo: Geometry, reserved: set<nat>, s: Snapshot) {
    && geo.Ok()
    && (forall b :: b in s.owner <==> b != 0 && exists p :: Place(geo.blockSize / 4, s.live, p) && At(s.disk, p) == b)
    && (forall p, q | Place(geo.blockSize / 4, s.live, p) && Place(geo.blockSize / 4, s.live, q)
        && At(s.disk, p) == At(s.disk, q) != 0 ::
          p == q)
    && s.owner.Keys !! reserved
    && BlockBitsTell(geo, reserved, s.owner, s.blockBits) && InodeBitsTell(geo, s.live, s.inodeBits)
    && s.freeBlocks == Sum(BlockCounts(s.groups))
      == |Numbers(BlockSpace(geo), |BlockSpace(geo)|) - (s.owner.Keys + reserved)|
    && s.freeInodes == Sum(InodeCounts(s.groups)) == |Numbers(InodeSpace(geo), |InodeSpace(geo)|) - s.live|
    && (forall i | i in s.live && i < |s.disk.inodes| ::
          s.disk.inodes[i].iblocks == |FileBlocks(s.owner, i)| * (geo.blockSize / 512))
  }

  ghost predicate BlockBitsTell(geo: Geometry, reserved: set<nat>, owner: map<nat, Pos>, bits: seq<Bits>)
    requires geo.Ok()
  {
    forall b | geo.DataBlock(b) ::
      && geo.GroupOf(b) < |bits|
      && (TestBit(bits[geo.GroupOf(b)], geo.BitOf(b)) <==> b in reserved || b in owner)
  }

  ghost predicate InodeBitsTell(geo: Geometry, live: set<nat>, bits: seq<Bits>)
    requires geo.Ok()
  {
    && (forall i | i in live :: geo.IsInode(i))
    && forall i | geo.IsInode(i) ::
      && geo.InodeGroup(i) < |bits|
      && (TestBit(bits[geo.InodeGroup(i)], geo.InodeBit(i)) <==> i in live)
  }

  lemma BitsTell(v: Volume)
    requires v.Consistent()
    ensures v.geo.Ok() && BlockBitsTell(v.geo, v.reserved, v.owner, v.blockBits)
    ensures InodeBitsTell(v.geo, v.live, v.inodeBits)
  {
    hide Volume.Sound, Volume.Consistent;
    ConsistentIs(v);
    SoundFacts(v);
    hide Geometry.Ok, TestBit, Geometry.DataBit, Geometry.BitOf, Geometry.GroupOf, Geometry.InodeGroup,
      Geometry.InodeBit, Geometry.Groups;
    forall b | v.geo.DataBlock(b)
      ensures v.geo.GroupOf(b) < |v.blockBits|
      ensures TestBit(v.blockBits[v.geo.GroupOf(b)], v.geo.BitOf(b)) <==> b in v.reserved || b in v.owner
    {
      BitIsOwned(v, b);
    }
    forall i: nat
      ensures i in v.live ==> v.geo.IsInode(i)
      ensures v.geo.IsInode(i) ==>
        && v.geo.InodeGroup(i) < |v.inodeBits|
        && (TestBit(v.inodeBits[v.geo.InodeGroup(i)], v.geo.InodeBit(i)) <==> i in v.live)
    {
      LiveBit(v, i);
    }
  }

  lemma ConservedAlways(v: Volume)
    requires v.Consistent()
    ensures Conserved(v.geo, v.reserved, Snap(v))
  {
    hide *;
    ConsistentIs(v);
    SoundFacts(v);
    AccountedFacts(v);
    CountersAgree(v);
    SnapIs(v);
    AllReachable(v.geo.blockSize / 4, v.D(), v.live, v.owner);
    MarkedIs(v);
    BitsTell(v);
    ConservedIntro(v.geo, v.reserved, Snap(v));
  }

  lemma AllReachable(links: nat, d: Disk, live: set<nat>, owner: map<nat, Pos>)
    requires TreeInv(links, d, live, owner)
    ensures forall b :: b in owner <==> b != 0 && exists p :: Place(links, live, p) && At(d, p) == b
    ensures forall p, q | Place(links, live, p) && Place(links, live, q) && At(d, p) == At(d, q) != 0 :: p == q
  {
    forall b
      ensures b in owner <==> b != 0 && exists p :: Place(links, live, p) && At(d, p) == b
    {
      if b in owner { assert Place(links, live, owner[b]) && At(d, owner[b]) == b; }
    }
  }

  lemma ConservedIntro(geo: Geometry, reserved: set<nat>, s: Snapshot)
    requires geo.Ok() && s.owner.Keys !! reserved
    requires forall b ::
      b in s.owner <==> b != 0 && exists p :: Place(geo.blockSize / 4, s.live, p) && At(s.disk, p) == b
    requires forall p, q | Place(geo.blockSize / 4, s.live, p) && Place(geo.blockSize / 4, s.live, q)
      && At(s.disk, p) == At(s.disk, q) != 0 ::
          p == q
    requires s.freeBlocks == Sum(BlockCounts(s.groups))
      == |Numbers(BlockSpace(geo), |BlockSpace(geo)|) - (s.owner.Keys + reserved)|
    requires BlockBitsTell(geo, reserved, s.owner, s.blockBits) && InodeBitsTell(geo, s.live, s.inodeBits)
    requires s.freeInodes == Sum(InodeCounts(s.groups)) == |Numbers(InodeSpace(geo), |InodeSpace(geo)|) - s.live|
    requires forall i | i in s.live && i < |s.disk.inodes| ::
      s.disk.inodes[i].iblocks == |FileBlocks(s.owner, i)| * (geo.blockSize / 512)
    ensures Conserved(geo, reserved, s)
  {
    hide At, Place, Numbers, BlockSpace, InodeSpace, FileBlocks, Sum, BlockBitsTell, InodeBitsTell;
  }

  /** The superblock counters, the sums of the group counters and the numbers of free blocks and inodes are the same. */
  lemma CountersAgree(v: Volume)
    requires v.Consistent()
    ensures v.geo.Ok()
    ensures v.freeBlocks == Sum(BlockCounts(v.groups))
         == |Numbers(BlockSpace(v.geo), |BlockSpace(v.geo)|) - v.Marked()|
    ensures v.freeInodes == Sum(InodeCounts(v.groups))
         == |Numbers(InodeSpace(v.geo), |InodeSpace(v.geo)|) - v.live|
    ensures forall i | i in v.live && i < |v.inodes| ::
      v.inodes[i].iblocks == |FileBlocks(v.owner, i)| * (v.geo.blockSize / 512)
  {
    hide *;
    ConsistentIs(v);
    SoundFacts(v);
    BlockSpaceOk(v.geo);
    InodeSpaceOk(v.geo);
    AccountedFacts(v);
    InodeBitsAre(v);
    MarkedIs(v);
    CountersAreClearBits(BlockSpace(v.geo), v.geo.blockSize, v.blockBits, BlockCounts(v.groups), v.used + v.reserved,
                         v.blockPadding);
    CountersAreClearBits(InodeSpace(v.geo), v.geo.blockSize, v.inodeBits, InodeCounts(v.groups), v.live,
                         v.inodePadding);
    Sectors(v.geo.blockSize, v.D(), v.live, v.owner);
  }

  lemma Sectors(bs: nat, d: Disk, live: set<nat>, owner: map<nat, Pos>)
    requires SectorsOk(bs, d, live, owner)
    ensures forall i | i in live && i < |d.inodes| :: d.inodes[i].iblocks == |FileBlocks(owner, i)| * (bs / 512)
  {
  }

  // ---- create, write, unlink ----

  /** A series of writes to file ino, some of which may have been left out. */
  ghost predicate Writes(bs: nat, states: seq<Snapshot>, ino: nat) {
    && |states| > 0 && BlockSizeOk(bs)
    && forall k | 0 < k < |states| :: states[k] == states[k - 1] || WriteStep(bs, states[k - 1], states[k], ino)
  }

  ghost predicate WriteStep(bs: nat, s: Snapshot, s': Snapshot, ino: nat)
    requires BlockSizeOk(bs)
  {
    && Changed(bs, s.disk, s.owner, s'.disk, s'.owner, s.live, ino) && s'.live == s.live
    && s'.freeBlocks + |s'.owner| == s.freeBlocks + |s.owner|
  }

  lemma WriteStepIs(bs: nat, s: Snapshot, s': Snapshot, ino: nat)
    requires BlockSizeOk(bs)
    ensures WriteStep(bs, s, s', ino) <==>
      && Changed(bs, s.disk, s.owner, s'.disk, s'.owner, s.live, ino) && s'.live == s.live
      && s'.freeBlocks + |s'.owner| == s.freeBlocks + |s.owner|
  {
  }

  /** However often a file is written, the other files' blocks, contents and counts stay what they were, and what the
      file gains the free blocks lose. */
  lemma {:induction false} WritesKeep(bs: nat, states: seq<Snapshot>, ino: nat, k: nat, names: Table)
    requires Writes(bs, states, ino) && k < |states| && ino !in names && ino in states[0].live
    requires NamesOk(bs, states[0].disk, states[0].live, names) && HasDots(bs, states[0].disk, names)
    requires HasTypes(bs, states[0].disk, names)
    ensures states[k].live == states[0].live && OwnersGrow(states[0].owner, states[k].owner, ino)
    ensures NamesOk(bs, states[k].disk, states[k].live, names) && HasDots(bs, states[k].disk, names)
    ensures HasTypes(bs, states[k].disk, names)
    ensures forall d | d in names :: Content(bs, states[k].disk, d) == Content(bs, states[0].disk, d)
    ensures states[k].freeBlocks + |states[k].owner| == states[0].freeBlocks + |states[0].owner|
    decreases k
  {
    hide NamesOk, HasDots, HasTypes, OwnersGrow, OnlyContent, Untouched;
    if k > 0 {
      WritesKeep(bs, states, ino, k - 1, names);
      if states[k] != states[k - 1] {
        assert WriteStep(bs, states[k - 1], states[k], ino);
        WriteKeeps(bs, states[k - 1].disk, states[k].disk, states[k - 1].live, ino, names);
        WriteKeepsTypes(bs, states[k - 1].disk, states[k].disk, states[k - 1].live, ino, names);
        ContentModes(bs, states[k - 1].disk, states[k].disk, states[k - 1].live, ino);
        NamesFacts(bs, states[k - 1].disk, states[k - 1].live, names);
        GrowTwice(states[0].owner, states[k - 1].owner, states[k].owner, ino);
      }
    } else {
      GrowNot(states[0].owner, ino);
    }
  }

  lemma WritesStart(bs: nat, s: Snapshot, ino: nat)
    requires BlockSizeOk(bs)
    ensures Writes(bs, [s], ino)
  {
  }

  lemma WritesMore(bs: nat, states: seq<Snapshot>, s: Snapshot, ino: nat)
    requires Writes(bs, states, ino)
    requires s == states[|states| - 1] || WriteStep(bs, states[|states| - 1], s, ino)
    ensures Writes(bs, states + [s], ino)
  {
    hide WriteStep;
  }

  /** Every block that was owned has the owner it had; what is owned besides belongs to directory dir, is as many blocks
      as a record for `name` was short of, and has left the free blocks. */
  ghost predicate Gained(bs: nat, s: Snapshot, s': Snapshot, dir: nat, name: Name) {
    && BlockSizeOk(bs) && DirOk(Content(bs, s.disk, dir), bs)
    && OwnersGrow(s.owner, s'.owner, dir)
    && |s'.owner| == |s.owner| + |InsertNeeds(bs, s.disk, dir, name)|
    && s'.freeBlocks + |InsertNeeds(bs, s.disk, dir, name)| == s.freeBlocks
    && (InsertNeeds(bs, s.disk, dir, name) == {} ==> s'.owner == s.owner)
  }

  lemma GainedIs(bs: nat, s: Snapshot, s': Snapshot, dir: nat, name: Name)
    requires BlockSizeOk(bs) && DirOk(Content(bs, s.disk, dir), bs)
    ensures Gained(bs, s, s', dir, name) <==>
      && OwnersGrow(s.owner, s'.owner, dir)
      && |s'.owner| == |s.owner| + |InsertNeeds(bs, s.disk, dir, name)|
      && s'.freeBlocks + |InsertNeeds(bs, s.disk, dir, name)| == s.freeBlocks
      && (InsertNeeds(bs, s.disk, dir, name) == {} ==> s'.owner == s.owner)
  {
  }

  /** Creating a file, writing it any number of times, and unlinking its only name puts the live inodes and all names
      back to what they were, and the blocks too, except for those that the directory was short of for the new
      record. */
  lemma RoundTrip(bs: nat, s: Snapshot, s1: Snapshot, states: seq<Snapshot>, s': Snapshot, dir: nat, ino: nat,
                  name: Name, mode: bv16, names: Table)
    requires FsOk(bs, s, names) && TreeInv(bs / 4, s.disk, s.live, s.owner) && NewName(names, dir, name) && ino < TWO32
    requires CanInsert(bs, s.disk, dir, name, s.freeBlocks) && DirOk(Content(bs, s.disk, dir), bs)
    requires Allocated(bs, s, s1, ino, mode)
    requires Writes(bs, states, ino) && EntryMade(bs, s1, states[0], dir, ino, name)
    requires Unlinked(bs, states[|states| - 1], s', dir, name)
    ensures s'.live == s.live && FsOk(bs, s', names) && Gained(bs, s, s', dir, name)
    ensures LastAt(Content(bs, s.disk, dir), bs, 12) ==> LastAt(Content(bs, s'.disk, dir), bs, 12)
  {
    hide *;
    NewNameIs(names, dir, name);
    AllocatedIs(bs, s, s1, ino, mode);
    FsFacts(bs, s, names);
    NamesFacts(bs, s.disk, s.live, names);
    CanInsertStill(bs, s, s1, ino, mode, dir, name, s.freeBlocks);
    LastState(bs, states, ino);
    FileGone(bs, s, s1, states, s', dir, ino, name, mode, names);
    DirectoryAsBefore(bs, s, s1, states, s', dir, ino, name, mode, names);
    SpentByEntry(bs, s1, states[0], dir, ino, name);
    OwnersBack(s.owner, states[0].owner, states[|states| - 1].owner, dir, ino, bs / 4, s.disk, s.live);
    FilePart(states[|states| - 1].owner, ino);
    GainedIs(bs, s, s', dir, name);
  }

  /** The names of a round trip: the file has one link from its creation to its end, and goes with it and all its
      blocks. */
  lemma FileGone(bs: nat, s: Snapshot, s1: Snapshot, states: seq<Snapshot>, s': Snapshot, dir: nat, ino: nat,
                 name: Name, mode: bv16, names: Table)
    requires FsOk(bs, s, names) && NewName(names, dir, name) && ino < TWO32
    requires Allocated(bs, s, s1, ino, mode)
    requires Writes(bs, states, ino) && EntryMade(bs, s1, states[0], dir, ino, name)
    requires Unlinked(bs, states[|states| - 1], s', dir, name)
    ensures s'.live == s.live && FsOk(bs, s', names)
    ensures var s2, last := states[0], states[|states| - 1];
      && OwnersGrow(s2.owner, last.owner, ino) && last.freeBlocks + |last.owner| == s2.freeBlocks + |s2.owner|
      && s'.owner == last.owner - FileBlocks(last.owner, ino)
        && s'.freeBlocks == last.freeBlocks + |FileBlocks(last.owner, ino)|
  {
    hide *;
    NewNameIs(names, dir, name);
    AllocatedIs(bs, s, s1, ino, mode);
    AllocatedKeepsFs(bs, s, s1, ino, mode, names);
    var names1 := Adding(names, dir, name, ino);
    LastState(bs, states, ino);
    var last := states[|states| - 1];
    CreatedOnce(bs, s, s1, states[0], dir, ino, name, mode, names);
    FsFacts(bs, states[0], names1);
    AddingIs(names, dir, name, ino);
    WritesKeep(bs, states, ino, |states| - 1, names1);
    FsFacts(bs, last, names1);
    OwnNew(bs, s, names, dir, name);
    OwnNameIs(names1, dir, name);
    UnlinkedKeeps(bs, last, s', dir, name, names1);
    BackAgain(names, dir, name, ino);
    NamesFacts(bs, last.disk, last.live, names1);
    UnlinkedHolds(bs, last, s', dir, name, names1[dir]);
    OnlyLink(bs, last, s', ino, names1);
  }

  /** A directory with just its dots can be removed again after the round trip: its last record is back at byte 12. */
  lemma DirectoryAsBefore(bs: nat, s: Snapshot, s1: Snapshot, states: seq<Snapshot>, s': Snapshot, dir: nat, ino: nat,
                          name: Name, mode: bv16, names: Table)
    requires FsOk(bs, s, names) && NewName(names, dir, name) && ino < TWO32
    requires Allocated(bs, s, s1, ino, mode)
    requires Writes(bs, states, ino) && EntryMade(bs, s1, states[0], dir, ino, name)
    requires Unlinked(bs, states[|states| - 1], s', dir, name)
    ensures LastAt(Content(bs, s.disk, dir), bs, 12) ==> LastAt(Content(bs, s'.disk, dir), bs, 12)
  {
    hide *;
    NewNameIs(names, dir, name);
    var names1 := Adding(names, dir, name, ino);
    LastState(bs, states, ino);
    var first, last := states[0], states[|states| - 1];
    EnteredThere(bs, s, s1, first, dir, ino, name, mode, names);
    CreatedOnce(bs, s, s1, first, dir, ino, name, mode, names);
    FsFacts(bs, first, names1);
    AddingIs(names, dir, name, ino);
    AllocatedKeepsFs(bs, s, s1, ino, mode, names);
    WritesKeep(bs, states, ino, |states| - 1, names1);
    OwnNew(bs, s, names, dir, name);
    UnlinkedRemoved(bs, last, s', dir, name);
    SizesOfBlock(bs);
    if LastAt(Content(bs, s.disk, dir), bs, 12) {
      LastAgain(bs, Content(bs, s.disk, dir), Content(bs, first.disk, dir), Content(bs, s'.disk, dir), dir,
                names[dir][DOTDOT], ino, TypeNumber(mode), name);
    }
  }

  lemma EnteredThere(bs: nat, s: Snapshot, s1: Snapshot, s2: Snapshot, dir: nat, ino: nat, name: Name, mode: bv16,
                     names: Table)
    requires FsOk(bs, s, names) && NewName(names, dir, name) && ino < TWO32
    requires Allocated(bs, s, s1, ino, mode) && EntryMade(bs, s1, s2, dir, ino, name)
    ensures BlockSizeOk(bs) && dir in names && DOTDOT in names[dir]
    ensures DirOk(Content(bs, s.disk, dir), bs) && Dots(Content(bs, s.disk, dir), dir, names[dir][DOTDOT])
    ensures DirOk(Content(bs, s2.disk, dir), bs) && Dots(Content(bs, s2.disk, dir), dir, names[dir][DOTDOT])
    ensures RecordMade(bs, Content(bs, s.disk, dir), Content(bs, s2.disk, dir), ino, TypeNumber(mode), name)
  {
    hide *;
    NewNameIs(names, dir, name);
    AllocatedIs(bs, s, s1, ino, mode);
    AllocatedReads(bs, s, s1, ino, mode);
    FreshInodeEmpty(mode);
    CreatedOnce(bs, s, s1, s2, dir, ino, name, mode, names);
    FsFacts(bs, s, names);
    var names1 := Adding(names, dir, name, ino);
    FsFacts(bs, s2, names1);
    NamesFacts(bs, s.disk, s.live, names);
    NamesFacts(bs, s2.disk, s2.live, names1);
    AddingIs(names, dir, name, ino);
    OwnNew(bs, s, names, dir, name);
    OneReads(bs, s.disk, s1.disk, s.live, dir);
    MadeTyped(bs, s1, s2, dir, ino, name);
    TypedIs(bs, Content(bs, s.disk, dir), Content(bs, s2.disk, dir), ino, mode, name);
    DotsIn(bs, s.disk, names, dir);
    DotsIn(bs, s2.disk, names1, dir);
    HoldingIs(bs, s.disk, dir, names[dir]);
    HoldingIs(bs, s2.disk, dir, names1[dir]);
  }

  lemma OneReads(bs: nat, d: Disk, d': Disk, live: set<nat>, i: nat)
    requires BlockSizeOk(bs) && AllRead(bs, d, d', live) && i in live
    ensures Content(bs, d', i) == Content(bs, d, i)
  {
  }

  ghost function TypeNumber(mode: bv16): nat {
    if mode & 0x8000 != 0 then 1 else if mode & 0x4000 != 0 then 2 else 0
  }

  lemma TypedIs(bs: nat, c: seq<byte>, c': seq<byte>, ino: nat, mode: bv16, name: Name)
    requires TypedRecord(bs, c, c', ino, mode, name)
    ensures RecordMade(bs, c, c', ino, TypeNumber(mode), name)
  {
    hide RecordMade;
  }

  lemma UnlinkedRemoved(bs: nat, s: Snapshot, s': Snapshot, dir: nat, name: Name)
    requires Unlinked(bs, s, s', dir, name)
    ensures BlockSizeOk(bs) && NameRemoved(bs, Content(bs, s.disk, dir), Content(bs, s'.disk, dir), name)
  {
    hide NameRemoved, LinkDropped, Content, DirOk, DirMap;
  }

  lemma LastState(bs: nat, states: seq<Snapshot>, ino: nat)
    requires Writes(bs, states, ino)
    ensures |states| > 0 && BlockSizeOk(bs)
  {
  }

  lemma CreatedOnce(bs: nat, s: Snapshot, s1: Snapshot, s2: Snapshot, dir: nat, ino: nat, name: Name, mode: bv16,
                    names: Table)
    requires FsOk(bs, s, names) && NewName(names, dir, name) && ino < TWO32
    requires Allocated(bs, s, s1, ino, mode) && EntryMade(bs, s1, s2, dir, ino, name)
    ensures dir in names && FsOk(bs, s2, Adding(names, dir, name, ino)) && s2.live == s.live + {ino}
    ensures |Refs(Adding(names, dir, name, ino), ino)| == 1
  {
    hide Allocated, EntryMade, FsOk, Refs, Adding;
    CreatedKeeps(bs, s, s2, dir, ino, name, mode, names);
  }

  /** A new name is neither of the dots, which every directory has. */
  lemma OwnNew(bs: nat, s: Snapshot, names: Table, dir: nat, name: Name)
    requires FsOk(bs, s, names) && NewName(names, dir, name)
    ensures name != DOT && name != DOTDOT
  {
    hide *;
    FsFacts(bs, s, names);
    NewNameIs(names, dir, name);
    DotsIn(bs, s.disk, names, dir);
  }

  lemma BackAgain(names: Table, dir: nat, name: Name, ino: nat)
    requires dir in names && name !in names[dir]
    ensures Removing(Adding(names, dir, name, ino), dir, name) == names
  {
    assert names[dir][name := ino] - {name} == names[dir];
  }

  lemma OnlyLink(bs: nat, s: Snapshot, s': Snapshot, ino: nat, names: Table)
    requires LinkDropped(bs, s, s', ino) && ino in s.live && s.disk.inodes[ino].links == |Refs(names, ino)| == 1
    ensures s'.live == s.live - {ino} && s'.owner == s.owner - FileBlocks(s.owner, ino)
    ensures s'.freeBlocks == s.freeBlocks + |FileBlocks(s.owner, ino)|
  {
  }

  /** A new file's blocks are all that it ever had: without them the owners are what they were when its record was
      stored. */
  lemma OwnersBack(owner: map<nat, Pos>, owner2: map<nat, Pos>, owner3: map<nat, Pos>, dir: nat, ino: nat, links: nat,
                   d: Disk, live: set<nat>)
    requires TreeInv(links, d, live, owner) && ino !in live && dir != ino
    requires OwnersGrow(owner, owner2, dir) && OwnersGrow(owner2, owner3, ino)
    ensures owner3 - FileBlocks(owner3, ino) == owner2
  {
    hide PosOk, At;
    assert forall b | b in owner :: Place(links, live, owner[b]);
    forall b | b in owner2
      ensures InoOf(owner2[b]) != ino
    {
      if InoOf(owner2[b]) != dir { assert b in OwnersBut(owner2, dir); }
    }
    assert OwnersBut(owner2, ino) == owner2;
    assert owner3 - FileBlocks(owner3, ino) == OwnersBut(owner3, ino);
  }

  lemma FilePart(owner: map<nat, Pos>, ino: nat)
    ensures |owner - FileBlocks(owner, ino)| + |FileBlocks(owner, ino)| == |owner|
  {
    var rest := owner - FileBlocks(owner, ino);
    assert owner.Keys == rest.Keys + FileBlocks(owner, ino);
    assert |rest.Keys| == |rest| && |owner.Keys| == |owner|;
  }

  // ---- on the bitmaps ----

  /** Two states of the same volume with the same live inodes, the second with the blocks of the first and possibly
      more: the inode bitmaps and counters are the same, and every block bit is, except that the bits of the new blocks
      are set. */
  ghost predicate BitsGrown(geo: Geometry, blockBits: seq<Bits>, blockBits': seq<Bits>, more: set<nat>)
    requires geo.Ok()
  {
    && |blockBits'| == |blockBits|
    && forall g: nat, i: nat | g < |blockBits| && i < 8 * geo.blockSize ::
         TestBit(blockBits'[g], i) <==>
           TestBit(blockBits[g], i) || (Cell(BlockSpace(geo), g, i) && Number(BlockSpace(geo), g, i) in more)
  }

  lemma AllocationRestored(geo: Geometry, owner: map<nat, Pos>, owner': map<nat, Pos>, live: set<nat>,
                           reserved: set<nat>,
                           blockPadding: set<(nat, nat)>, inodePadding: set<(nat, nat)>,
                           blockBits: seq<Bits>, inodeBits: seq<Bits>, groups: seq<GroupDesc>, freeInodes: nat,
                           blockBits': seq<Bits>, inodeBits': seq<Bits>, groups': seq<GroupDesc>, freeInodes': nat)
    requires geo.Ok() && owner.Keys <= owner'.Keys && owner'.Keys !! reserved
    requires Accounted(BlockSpace(geo), geo.blockSize, blockBits, BlockCounts(groups), owner.Keys + reserved,
                       blockPadding)
    requires Accounted(BlockSpace(geo), geo.blockSize, blockBits', BlockCounts(groups'), owner'.Keys + reserved,
                       blockPadding)
    requires InodeBitsOk(geo, inodeBits, InodeCounts(groups), live, inodePadding, freeInodes)
    requires InodeBitsOk(geo, inodeBits', InodeCounts(groups'), live, inodePadding, freeInodes')
    ensures inodeBits' == inodeBits && freeInodes' == freeInodes && InodeCounts(groups') == InodeCounts(groups)
    ensures BitsGrown(geo, blockBits, blockBits', owner'.Keys - owner.Keys)
    ensures owner' == owner ==> blockBits' == blockBits && BlockCounts(groups') == BlockCounts(groups)
  {
    hide Accounted;
    MarksGrow(BlockSpace(geo), geo.blockSize, owner.Keys + reserved, owner'.Keys + reserved, blockPadding,
              blockBits, BlockCounts(groups), blockBits', BlockCounts(groups'));
    assert (owner'.Keys + reserved) - (owner.Keys + reserved) == owner'.Keys - owner.Keys;
    AllocationDetermined(InodeSpace(geo), geo.blockSize, live, inodePadding,
                         inodeBits, InodeCounts(groups), inodeBits', InodeCounts(groups'));
    if owner' == owner {
      AllocationDetermined(BlockSpace(geo), geo.blockSize, owner.Keys + reserved, blockPadding,
                           blockBits, BlockCounts(groups), blockBits', BlockCounts(groups'));
    }
  }

  // ---- the operations in a row ----

  datatype Part = Part(offset: nat, buf: seq<byte>)

  /** One piece: written where the free blocks are enough for what it is short of, and left out where they are not. */
  ghost predicate Tried(bs: nat, s: Snapshot, s': Snapshot, ino: nat, part: Part)
    requires BlockSizeOk(bs)
  {
    if |WriteNeeds(bs, s.disk, ino, part.offset, |part.buf|)| <= s.freeBlocks then
      && WriteStep(bs, s, s', ino)
      && Content(bs, s'.disk, ino) == Overlay(Content(bs, s.disk, ino), part.offset, part.buf)
      && s'.freeBlocks + |WriteNeeds(bs, s.disk, ino, part.offset, |part.buf|)| == s.freeBlocks
    else s' == s
  }

  lemma TriedIs(bs: nat, s: Snapshot, s': Snapshot, ino: nat, part: Part)
    requires BlockSizeOk(bs)
    ensures Tried(bs, s, s', ino, part) <==>
      if |WriteNeeds(bs, s.disk, ino, part.offset, |part.buf|)| <= s.freeBlocks then
        && WriteStep(bs, s, s', ino)
        && Content(bs, s'.disk, ino) == Overlay(Content(bs, s.disk, ino), part.offset, part.buf)
        && s'.freeBlocks + |WriteNeeds(bs, s.disk, ino, part.offset, |part.buf|)| == s.freeBlocks
      else s' == s
  {
  }

  /** The pieces one after the other: states[k] is the volume before piece k. */
  ghost predicate AllTried(bs: nat, states: seq<Snapshot>, ino: nat, pieces: seq<Part>) {
    && BlockSizeOk(bs) && |states| == |pieces| + 1
    && forall k | 0 <= k < |pieces| :: Tried(bs, states[k], states[k + 1], ino, pieces[k])
  }

  lemma TriedStart(bs: nat, s: Snapshot, ino: nat)
    requires BlockSizeOk(bs)
    ensures AllTried(bs, [s], ino, [])
  {
  }

  lemma TriedMore(bs: nat, states: seq<Snapshot>, s: Snapshot, ino: nat, pieces: seq<Part>, part: Part)
    requires AllTried(bs, states, ino, pieces) && Tried(bs, states[|states| - 1], s, ino, part)
    ensures AllTried(bs, states + [s], ino, pieces + [part])
  {
    hide Tried;
  }

  /** The file is created, the pieces are tried, and its name is taken away again. */
  ghost predicate CameAndWent(bs: nat, s: Snapshot, states: seq<Snapshot>, s': Snapshot, dir: nat, ino: nat, name: Name,
                              mode: bv16, pieces: seq<Part>)
  {
    && AllTried(bs, states, ino, pieces)
    && (exists s1 :: Allocated(bs, s, s1, ino, mode) && EntryMade(bs, s1, states[0], dir, ino, name))
    && Unlinked(bs, states[|states| - 1], s', dir, name)
  }

  lemma CameAndWentIntro(bs: nat, s: Snapshot, s1: Snapshot, states: seq<Snapshot>, s': Snapshot, dir: nat, ino: nat,
                         name: Name, mode: bv16, pieces: seq<Part>)
    requires |states| > 0 && AllTried(bs, states, ino, pieces)
    requires Allocated(bs, s, s1, ino, mode) && EntryMade(bs, s1, states[0], dir, ino, name)
    requires Unlinked(bs, states[|states| - 1], s', dir, name)
    ensures CameAndWent(bs, s, states, s', dir, ino, name, mode, pieces)
  {
    hide AllTried, Allocated, EntryMade, Unlinked;
  }

  lemma CreateStep(bs: nat, s: Snapshot, s2: Snapshot, dir: nat, ino: nat, name: Name, mode: bv16, names: Table,
                   names': Table)
    returns (s1: Snapshot)
    requires Happens(bs, Create(dir, name, ino, mode), s, names, s2, names') && FsOk(bs, s, names)
    ensures Allocated(bs, s, s1, ino, mode) && EntryMade(bs, s1, s2, dir, ino, name) && ino < TWO32
    ensures NewName(names, dir, name) && names' == Adding(names, dir, name, ino)
    ensures s2.live == s.live + {ino} && ino !in s.live && dir in s.live
    ensures dir in names && ino !in names && ino !in names' && dir in names' && name in names'[dir] && name != DOT
      && name != DOTDOT
  {
    hide *;
    s1 := Unfolded(bs, s, s2, dir, ino, name, mode, names, names');
    FsFacts(bs, s, names);
    NamesFacts(bs, s.disk, s.live, names);
    NewNameIs(names, dir, name);
    AllocatedIs(bs, s, s1, ino, mode);
    MadeContent(bs, s1, s2, dir, ino, name);
    AddingIs(names, dir, name, ino);
    OwnNew(bs, s, names, dir, name);
  }

  lemma Unfolded(bs: nat, s: Snapshot, s2: Snapshot, dir: nat, ino: nat, name: Name, mode: bv16, names: Table,
                 names': Table)
    returns (s1: Snapshot)
    requires Happens(bs, Create(dir, name, ino, mode), s, names, s2, names')
    ensures Allocated(bs, s, s1, ino, mode) && EntryMade(bs, s1, s2, dir, ino, name) && ino < TWO32
    ensures NewName(names, dir, name) && names' == Adding(names, dir, name, ino)
  {
    hide Allocated, EntryMade, NewName, Adding;
    s1 :| Allocated(bs, s, s1, ino, mode) && EntryMade(bs, s1, s2, dir, ino, name);
  }

  lemma RemoveStep(bs: nat, dir: nat, name: Name, s: Snapshot, names: Table, s': Snapshot, names': Table)
    requires Happens(bs, RemoveName(dir, name), s, names, s', names')
    ensures Unlinked(bs, s, s', dir, name)
  {
  }

  /** A file comes and goes: create_file_ext2, any number of write_file_ext2 and unlink_file_ext2 leave the names, the
      inode bitmaps and the inode counters as they were, and the block bitmaps and counters too, but for the blocks the
      directory was short of. A write for which the free blocks are not enough is left out; `states` is what the pieces
      did. */
  method CreateWriteUnlink(v: Volume, hp: FileHandle, hn: FileHandle, fname: Name, imode: bv16, pieces: seq<Part>,
                           ghost names: Table)
    returns (ok: bool, ghost states: seq<Snapshot>)
    requires Mounted(v, names) && Open(v, hp) && hp != hn && hp.ino in names && BlockSizeOk(v.geo.blockSize)
    requires CanInsert(v.geo.blockSize, v.D(), hp.ino, fname, v.freeBlocks) && NewName(names, hp.ino, fname)
    requires forall k | 0 <= k < |pieces| :: pieces[k].offset + |pieces[k].buf| < TWO32
    modifies v, hp, hn
    ensures hp.ino == old(hp.ino)
    ensures Mounted(v, names) && v.geo.Ok() && (ok <==> AnyFree(InodeSpace(v.geo), old(v.live)))
    ensures !ok ==> unchanged(v)
    ensures v.inodeBits == old(v.inodeBits) && v.freeInodes == old(v.freeInodes)
    ensures InodeCounts(v.groups) == old(InodeCounts(v.groups))
    ensures OwnersGrow(old(v.owner), v.owner, hp.ino)
    ensures BitsGrown(v.geo, old(v.blockBits), v.blockBits, v.owner.Keys - old(v.owner.Keys))
    ensures ok ==> Gained(v.geo.blockSize, old(Snap(v)), Snap(v), hp.ino, fname)
    ensures ok && LastAt(Content(v.geo.blockSize, old(v.D()), hp.ino), v.geo.blockSize, 12) ==>
      LastAt(Content(v.geo.blockSize, v.D(), hp.ino), v.geo.blockSize, 12)
    ensures ok ==> hn.ino !in old(v.live)
    ensures ok ==>
      CameAndWent(v.geo.blockSize, old(Snap(v)), states, Snap(v), hp.ino, hn.ino, fname, imode, pieces)
    ensures v.owner == old(v.owner) ==>
      v.blockBits == old(v.blockBits) && v.freeBlocks == old(v.freeBlocks)
        && BlockCounts(v.groups) == old(BlockCounts(v.groups))
  {
    hide *;
    MountedFacts(v, names);
    SoundFacts(v);
    AccountedFacts(v);
    ghost var bs, s := v.geo.blockSize, Snap(v);
    ghost var names1;
    states := [];
    NewNameIs(names, hp.ino, fname);
    NameFits(fname);
    CanInsertFacts(bs, s.disk, hp.ino, fname, s.freeBlocks);
    ok, names1 := CreateFile(v, hp, hn, fname, imode, names);
    if ok {
      MountedFacts(v, names1);
      states := WriteAndUnlink(v, hp, hn, fname, pieces, names1, s, imode, names);
      SnapIs(v);
      GainedIs(bs, s, Snap(v), hp.ino, fname);
    } else {
      GrowNot(v.owner, hp.ino);
    }
    AccountedFacts(v);
    OwnersMore(old(v.owner), v.owner, hp.ino);
    AllocationRestored(v.geo, old(v.owner), v.owner, v.live, v.reserved, v.blockPadding, v.inodePadding,
                       old(v.blockBits), old(v.inodeBits), old(v.groups), old(v.freeInodes),
                       v.blockBits, v.inodeBits, v.groups, v.freeInodes);
  }

  lemma OwnersMore(owner: map<nat, Pos>, owner': map<nat, Pos>, ino: nat)
    requires OwnersGrow(owner, owner', ino)
    ensures owner.Keys <= owner'.Keys
  {
  }

  /** The writes and the unlink of CreateWriteUnlink; s is the volume before the file was created. */
  method WriteAndUnlink(v: Volume, hp: FileHandle, hn: FileHandle, fname: Name, pieces: seq<Part>, ghost names1: Table,
                        ghost s: Snapshot, ghost imode: bv16, ghost names: Table)
    returns (ghost states: seq<Snapshot>)
    requires Mounted(v, names1) && Open(v, hp) && Open(v, hn) && hp != hn && BlockSizeOk(v.geo.blockSize)
    requires forall k | 0 <= k < |pieces| :: pieces[k].offset + |pieces[k].buf| < TWO32
    requires FsOk(v.geo.blockSize, s, names) && TreeInv(v.geo.blockSize / 4, s.disk, s.live, s.owner)
    requires CanInsert(v.geo.blockSize, s.disk, hp.ino, fname, s.freeBlocks)
    requires Happens(v.geo.blockSize, Create(hp.ino, fname, hn.ino, imode), s, names, Snap(v), names1)
    modifies v, hp, hn
    ensures hp.ino == old(hp.ino)
    ensures Mounted(v, names) && v.Sound() && v.live == s.live && Gained(v.geo.blockSize, s, Snap(v), hp.ino, fname)
    ensures v.BlocksAccounted() && v.used == v.owner.Keys
    ensures v.geo.Ok() && InodeBitsOk(v.geo, v.inodeBits, InodeCounts(v.groups), v.live, v.inodePadding, v.freeInodes)
    ensures hn.ino == old(hn.ino) && hn.ino !in s.live
    ensures LastAt(Content(v.geo.blockSize, s.disk, hp.ino), v.geo.blockSize, 12) ==>
      LastAt(Content(v.geo.blockSize, v.D(), hp.ino), v.geo.blockSize, 12)
    ensures CameAndWent(v.geo.blockSize, s, states, Snap(v), hp.ino, hn.ino, fname, imode, pieces)
  {
    hide *;
    MountedFacts(v, names1);
    ghost var bs, s2 := v.geo.blockSize, Snap(v);
    ghost var s1 := CreateStep(bs, s, s2, hp.ino, hn.ino, fname, imode, names, names1);
    CanInsertFacts(bs, s.disk, hp.ino, fname, s.freeBlocks);
    states := WriteAll(v, hp, hn, pieces, names1);
    ghost var last := Snap(v);
    ghost var ok, names2 := UnlinkFile(v, hp, fname, names1);
    RemoveStep(bs, hp.ino, fname, last, names1, Snap(v), names2);
    CameAndWentIntro(bs, s, s1, states, Snap(v), hp.ino, hn.ino, fname, imode, pieces);
    RoundTrip(bs, s, s1, states, Snap(v), hp.ino, hn.ino, fname, imode, names);
    ConsistentAgain(v, names, names2);
    SnapIs(v);
  }

  /** Any number of writes to one file beside another open one. */
  method WriteAll(v: Volume, hp: FileHandle, hn: FileHandle, pieces: seq<Part>, ghost names: Table)
      returns (ghost states: seq<Snapshot>)
    requires Mounted(v, names) && Open(v, hp) && Open(v, hn) && hp.ino != hn.ino && hn.ino !in names
      && BlockSizeOk(v.geo.blockSize)
    requires forall k | 0 <= k < |pieces| :: pieces[k].offset + |pieces[k].buf| < TWO32
    modifies v`blocks, v`inodes, v`groups, v`blockBits, v`freeBlocks, v`used, v`owner, hn`inode, hn`it
    ensures Mounted(v, names) && Open(v, hp) && Open(v, hn)
    ensures Writes(v.geo.blockSize, states, hn.ino) && |states| > 0 && states[0] == old(Snap(v))
      && states[|states| - 1] == Snap(v)
    ensures AllTried(v.geo.blockSize, states, hn.ino, pieces)
  {
    hide *;
    ghost var bs := v.geo.blockSize;
    states := [Snap(v)];
    WritesStart(bs, Snap(v), hn.ino);
    TriedStart(bs, Snap(v), hn.ino);
    var i := 0;
    assert pieces[..0] == [];
    while i < |pieces|
      invariant 0 <= i <= |pieces| && Mounted(v, names) && Open(v, hp) && Open(v, hn)
      invariant Writes(bs, states, hn.ino) && |states| > 0 && states[0] == old(Snap(v))
        && states[|states| - 1] == Snap(v)
      invariant AllTried(bs, states, hn.ino, pieces[..i])
    {
      ghost var s := Snap(v);
      WriteIfRoom(v, hp, hn, pieces[i], names);
      WritesMore(bs, states, Snap(v), hn.ino);
      TriedMore(bs, states, Snap(v), hn.ino, pieces[..i], pieces[i]);
      assert pieces[..i] + [pieces[i]] == pieces[..i + 1];
      states := states + [Snap(v)];
      i := i + 1;
    }
    assert pieces[..i] == pieces;
  }

  method WriteIfRoom(v: Volume, hp: FileHandle, hn: FileHandle, part: Part, ghost names: Table)
    requires Mounted(v, names) && Open(v, hp) && Open(v, hn) && hp.ino != hn.ino && hn.ino !in names
      && BlockSizeOk(v.geo.blockSize)
    requires part.offset + |part.buf| < TWO32
    modifies v`blocks, v`inodes, v`groups, v`blockBits, v`freeBlocks, v`used, v`owner, hn`inode, hn`it
    ensures Mounted(v, names) && Open(v, hp) && Open(v, hn)
    ensures Tried(v.geo.blockSize, old(Snap(v)), Snap(v), hn.ino, part)
    ensures Snap(v) == old(Snap(v)) || WriteStep(v.geo.blockSize, old(Snap(v)), Snap(v), hn.ino)
  {
    hide *;
    ghost var bs, s := v.geo.blockSize, Snap(v);
    MountedFacts(v, names);
    OpenFacts(v, hp);
    SnapIs(v);
    var needs := WriteSpace(v, hn, part.offset, |part.buf|);
    if |needs| <= v.freeBlocks {
      var n := WriteNamed(v, hn, part.buf, part.offset, names);
      MountedFacts(v, names);
      OpenAfterWrite(v, hp, s.disk, s.owner, hn.ino);
      SnapIs(v);
      WriteStepIs(bs, s, Snap(v), hn.ino);
    }
    TriedIs(bs, s, Snap(v), hn.ino, part);
  }

  lemma ConsistentAgain(v: Volume, names: Table, names2: Table)
    requires Mounted(v, names2) && FsOk(v.geo.blockSize, Snap(v), names)
    ensures Mounted(v, names) && v.Sound() && v.BlocksAccounted() && v.used == v.owner.Keys
    ensures v.freeBlocks == Sum(BlockCounts(v.groups))
    ensures v.geo.Ok() && InodeBitsOk(v.geo, v.inodeBits, InodeCounts(v.groups), v.live, v.inodePadding, v.freeInodes)
  {
    hide *;
    MountedIs(v, names);
    MountedIs(v, names2);
    ConsistentIs(v);
    SoundFacts(v);
  }
}
