/** The first directory of a volume on which nothing is marked, made by the same operations as every later one. */
module FirstDirectory {
  import opened Arithmetic
  import opened Bytes
  import opened Bitmap
  import opened Layout
  import opened Accounting
  import opened Tree
  import opened Contents
  import opened Volumes
  import opened FileHandles
  import opened NewInodes
  import opened DirRecords
  import opened Directories
  import opened Names
  import opened Operations
  import opened Namespace

  /** An empty volume has no names. */
  lemma NoNames(bs: nat, s: Snapshot)
    requires BlockSizeOk(bs) && s.live == {}
    ensures FsOk(bs, s, map[])
  {
  }

  function RootTable(ino: nat): Table {
    map[ino := DotEntries(ino, ino)]
  }

  /** The two entries of a directory that is its own parent. */
  lemma RootNames(bs: nat, s1: Snapshot, s2: Snapshot, s3: Snapshot, ino: nat)
    requires FsOk(bs, s1, map[]) && ino in s1.live && BlockSizeOk(bs) && Content(bs, s1.disk, ino) == []
      && 0 < ino < TWO32
    requires EntryMade(bs, s1, s2, ino, ino, DOT) && EntryMade(bs, s2, s3, ino, ino, DOTDOT)
    ensures FsOk(bs, s3, RootTable(ino))
  {
    hide *;
    FsFacts(bs, s1, map[]);
    DotNames();
    MadeContent(bs, s1, s2, ino, ino, DOT);
    MadeContent(bs, s2, s3, ino, ino, DOTDOT);
    var n0: Table := map[];
    var n1 := n0[ino := map[]];
    NewTable(bs, s1.disk, s1.live, ino, n0);
    NewKeepsTypes(bs, s1.disk, n0, ino);
    EnterKeeps(bs, s1, s2, ino, ino, DOT, n1);
    EnterKeepsTypes(bs, s1, s2, ino, ino, DOT, n1);
    AddingIs(n1, ino, DOT, ino);
    var n2 := Adding(n1, ino, DOT, ino);
    EnterKeeps(bs, s2, s3, ino, ino, DOTDOT, n2);
    EnterKeepsTypes(bs, s2, s3, ino, ino, DOTDOT, n2);
    AddingIs(n2, ino, DOTDOT, ino);
    DotEntriesIs(ino, ino, n1[ino]);
    RootTableIs(ino);
    assert Adding(n2, ino, DOTDOT, ino) == RootTable(ino);
    DotsMade(bs, ino, FileType(s1.disk.inodes[ino].mode), ino, FileType(s2.disk.inodes[ino].mode));
    DotsOfIs(bs, s3.disk, ino, DotEntries(ino, ino));
    OnlyRoot(bs, s3.disk, ino);
    FsFacts(bs, s3, RootTable(ino));
  }

  lemma RootTableIs(ino: nat)
    ensures RootTable(ino) == map[ino := DotEntries(ino, ino)]
  {
  }

  lemma OnlyRoot(bs: nat, d: Disk, ino: nat)
    requires BlockSizeOk(bs) && DotsOf(bs, d, ino, DotEntries(ino, ino))
    ensures HasDots(bs, d, RootTable(ino))
  {
  }

  lemma SomeInodeFree(geo: Geometry)
    requires geo.Ok()
    ensures AnyFree(InodeSpace(geo), {}) && geo.Groups() > 0
  {
    GroupsBounds(geo);
    InodeCell(geo, 0, 0);
    assert Free(InodeSpace(geo), {}, 0, 0);
  }

  lemma NewDirectoryMode(imode: bv16)
    ensures FreshInode(imode).links == 0
  {
  }

  // ---- volumes to begin with ----

  /** A volume on which nothing is marked. */
  method EmptyVolume(geo: Geometry) returns (v: Volume)
    requires geo.Ok()
    ensures fresh(v) && v.Consistent() && v.geo == geo && v.live == {} && v.reserved == {}
    ensures v.freeBlocks == Sum(BlockCounts(EmptyGroups(geo)))
  {
    hide Accounted;
    EmptyAccounts(geo);
    v := new Volume(geo, ClearBitmaps(geo.Groups(), geo.blockSize), EmptyGroups(geo), {});
  }

  /** Setting the last bit of the last group of an empty volume keeps bitmaps and counters in step. */
  lemma PresetAccounts(geo: Geometry, g: nat, last: nat)
    requires geo.Ok() && g < geo.Groups() && geo.FirstBit(g) <= last <= geo.LastBit(g)
    ensures |EmptyGroups(geo)| == geo.Groups() && EmptyGroups(geo)[g].freeBlocks > 0
    ensures last / 8 < |ClearBitmaps(geo.Groups(), geo.blockSize)[g]|
    ensures var groups := EmptyGroups(geo)[g := EmptyGroups(geo)[g].(freeBlocks := EmptyGroups(geo)[g].freeBlocks - 1)];
      var bits := ClearBitmaps(geo.Groups(), geo.blockSize);
      && InodeCounts(groups) == InodeCounts(EmptyGroups(geo))
      && Accounted(BlockSpace(geo), geo.blockSize, bits[g := SetBit(bits[g], last)], BlockCounts(groups),
                   {geo.BlockNo(g, last)}, {})
      && Sum(BlockCounts(groups)) + 1 == Sum(BlockCounts(EmptyGroups(geo)))
  {
    var groups, bits := EmptyGroups(geo), ClearBitmaps(geo.Groups(), geo.blockSize);
    EmptyAccounts(geo);
    BlockSpaceOk(geo);
    BlockCell(geo, g, last);
    TakeOne(BlockSpace(geo), geo.blockSize, bits, BlockCounts(groups), g, last);
    OneFewer(groups, g);
  }

  lemma TakeOne(space: Space, bytes: nat, bits: seq<Bits>, counts: seq<nat>, g: nat, i: nat)
    requires SpaceOk(space, bytes) && Accounted(space, bytes, bits, counts, {}, {}) && Cell(space, g, i)
    ensures i / 8 < |bits[g]| && counts[g] > 0
    ensures Accounted(space, bytes, bits[g := SetBit(bits[g], i)], counts[g := counts[g] - 1],
                      {Number(space, g, i)}, {})
    ensures Sum(counts[g := counts[g] - 1]) + 1 == Sum(counts)
  {
    hide Accounted, SpaceOk, Cell, SetBit, Number;
    assert Free(space, {}, g, i);
    Take(space, bytes, bits, counts, {}, {}, g, i);
    assert {} + {Number(space, g, i)} == {Number(space, g, i)};
  }

  lemma OneFewer(groups: seq<GroupDesc>, g: nat)
    requires g < |groups| && BlockCounts(groups)[g] > 0
    ensures |BlockCounts(groups)| == |groups| && groups[g].freeBlocks == BlockCounts(groups)[g]
    ensures var groups' := groups[g := groups[g].(freeBlocks := groups[g].freeBlocks - 1)];
      && BlockCounts(groups') == BlockCounts(groups)[g := groups[g].freeBlocks - 1]
      && InodeCounts(groups') == InodeCounts(groups)
  {
  }

  /** A volume on which the last bit of the last group has been set when it was made, so that no file gets its block. */
  method PresetVolume(geo: Geometry) returns (v: Volume)
    requires geo.Ok() && geo.Groups() > 0 && geo.FirstBit(geo.Groups() - 1) <= geo.LastBit(geo.Groups() - 1)
    ensures fresh(v) && v.Consistent() && v.geo == geo && v.live == {}
    ensures v.reserved == {geo.BlockNo(geo.Groups() - 1, geo.LastBit(geo.Groups() - 1))}
    ensures v.freeBlocks + 1 == Sum(BlockCounts(EmptyGroups(geo)))
  {
    var g: nat, groups, bits := geo.Groups() - 1, EmptyGroups(geo), ClearBitmaps(geo.Groups(), geo.blockSize);
    var last: nat := geo.LastBit(g);
    ghost var reserved: set<nat> := {geo.BlockNo(g, last)};
    hide *;
    PresetAccounts(geo, g, last);
    groups := groups[g := groups[g].(freeBlocks := groups[g].freeBlocks - 1)];
    v := new Volume(geo, bits[g := SetBit(bits[g], last)], groups, reserved);
  }

  /** From nothing: a volume without a file but with a free block takes a directory that is its own parent, and the
      invariants of the namespace hold. So what the other operations ask for can be met. */
  method MakeRoot(v: Volume) returns (h: FileHandle, ok: bool)
    requires v.Consistent() && v.live == {}
    modifies v
    ensures fresh(h) && (ok <==> old(v.freeBlocks) > 0)
    ensures ok ==> Mounted(v, RootTable(h.ino)) && Open(v, h) && h.ino in RootTable(h.ino) && v.live == {h.ino}
  {
    hide *;
    h := new FileHandle();
    ok := v.freeBlocks > 0;
    if !ok {
      return;
    }
    ghost var bs, s0 := v.geo.blockSize, Snap(v);
    ConsistentIs(v);
    SoundFacts(v);
    SnapIs(v);
    VolumeDisk(v);
    SomeInodeFree(v.geo);
    DotNames();
    NoNames(bs, s0);
    var mode := DirectoryMode(0);
    var made := AllocateNewInode(v, h, 0, mode);
    ghost var s1 := Snap(v);
    SnapIs(v);
    VolumeDisk(v);
    AllocatedIntro(bs, s0, s1, h.ino, mode);
    AllocatedKeepsFs(bs, s0, s1, h.ino, mode, map[]);
    ConsistentIs(v);
    SoundFacts(v);
    OpenFacts(v, h);
    NewDirectoryMode(mode);
    InodesAreSmall(v.geo, h.ino);
    FirstEntryRoom(bs, v.D(), h.ino, v.freeBlocks);
    OpenDirIntro(v, h, v.D());
    made := CreateDirEntry(v, h, h, DOT);
    ghost var s2 := Snap(v);
    SecondRecord(v, h, s1, s2);
    made := CreateDirEntry(v, h, h, DOTDOT);
    RootNames(bs, s1, s2, Snap(v), h.ino);
    OpenDirOpen(v, h);
    MountedIs(v, RootTable(h.ino));
    RootTableIs(h.ino);
  }

  lemma SecondRecord(v: Volume, h: FileHandle, s1: Snapshot, s2: Snapshot)
    requires OpenDir(v, h) && s2 == Snap(v) && EntryMade(v.geo.blockSize, s1, s2, h.ino, h.ino, DOT) && h.ino in s1.live
    requires BlockSizeOk(v.geo.blockSize) && Content(v.geo.blockSize, s1.disk, h.ino) == []
    requires h.ino < |s1.disk.inodes| && s1.disk.inodes[h.ino].links == 0
    ensures Open(v, h) && CanInsert(v.geo.blockSize, v.D(), h.ino, DOTDOT, v.freeBlocks) && h.inode.links == 1
  {
    hide *;
    OpenDirFacts(v, h);
    OpenFacts(v, h);
    SnapIs(v);
    VolumeDisk(v);
    InodesAreSmall(v.geo, h.ino);
    MadeContent(v.geo.blockSize, s1, s2, h.ino, h.ino, DOT);
    MadeUntouched(v.geo.blockSize, s1, s2, h.ino, h.ino, DOT);
    SecondEntryRoom(v.geo.blockSize, v.D(), h.ino, FileType(s1.disk.inodes[h.ino].mode), v.freeBlocks);
  }

  /** A volume of one group begins with all its data blocks free. */
  lemma OneGroup(geo: Geometry)
    requires geo.Ok() && geo.Groups() == 1 && geo.FirstBit(0) <= geo.LastBit(0)
    ensures Sum(BlockCounts(EmptyGroups(geo))) == geo.LastBit(0) - geo.FirstBit(0) + 1
  {
    hide Geometry.Groups, Geometry.FirstBit, Geometry.LastBit;
    var counts := BlockCounts(EmptyGroups(geo));
    assert |counts| == 1 && counts[0] == geo.LastBit(0) - geo.FirstBit(0) + 1;
    hide BlockCounts, EmptyGroups;
    assert Sum(counts) == counts[0] + Sum(counts[1..]);
  }

  /** A layout of one group of 8192 bits with 8 inodes, whose table stands behind the reserved blocks. */
  lemma OneGroupIs(geo: Geometry)
    requires geo.blockSize == 1024 && geo.blocksPerGroup == 8192 && geo.inodesPerGroup == 8
    requires 0 < geo.blocksCount <= 64 && geo.firstDataBlock <= 1 && |geo.inodeTable| == 1
    requires geo.firstDataBlock <= geo.inodeTable[0] && 0 < geo.inodeTable[0]
    ensures geo.Ok() && geo.Groups() == 1
    ensures geo.FirstBit(0) == geo.inodeTable[0] + 1 - geo.firstDataBlock && geo.LastBit(0) == geo.blocksCount - 1
  {
    GroupsIs(geo);
    FirstIs(geo);
    hide Geometry.Groups, Geometry.FirstBit;
    assert geo.inodesPerGroup * INODE_RECORD % geo.blockSize == 0 by { assert 8 * 128 % 1024 == 0; }
    assert geo.BlockBound() * geo.blockSize <= TWO32 by { assert geo.BlockBound() <= 65; }
  }

  lemma GroupsIs(geo: Geometry)
    requires geo.blocksPerGroup == 8192 && 0 < geo.blocksCount <= 64
    ensures geo.Groups() == 1
  {
    assert geo.blocksCount + 8191 == 8192 + (geo.blocksCount - 1);
    DivUnique(geo.blocksCount + 8191, 8192, 1, geo.blocksCount - 1);
  }

  lemma FirstIs(geo: Geometry)
    requires geo.blockSize == 1024 && geo.inodesPerGroup == 8 && |geo.inodeTable| == 1
    ensures geo.FirstBit(0) == geo.inodeTable[0] + 1 - geo.firstDataBlock
  {
    assert 8 * INODE_RECORD / 1024 == 1;
  }

  /** A small layout that the code can work on: 64 blocks of 1024 bytes, 8 inodes. */
  lemma SmallVolume(geo: Geometry)
    requires geo == Geometry(1024, 64, 0, 8192, 8, [5])
    ensures geo.Ok() && Sum(BlockCounts(EmptyGroups(geo))) > 0
  {
    hide *;
    OneGroupIs(geo);
    OneGroup(geo);
  }
}
