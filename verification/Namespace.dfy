/** create_file_ext2, create_directory_ext2, unlink_file_ext2 and delete_directory_ext2 on handles: each is the
    transition of the namespace that Operations names, and the volume stays consistent. */
module Namespace {
  import opened Bytes
  import opened BlockIndex
  import opened Accounting
  import opened Layout
  import opened Tree
  import opened Contents
  import opened Volumes
  import opened FileHandles
  import opened Grafting
  import opened FileIO
  import opened NewInodes
  import opened DirRecords
  import opened RecordBytes
  import opened DirStores
  import opened Directories
  import opened Unlinking
  import opened Names
  import opened Operations

  /** A consistent volume whose names and link counts agree. */
  ghost predicate Mounted(v: Volume, names: Table)
    reads v
  {
    v.Consistent() && FsOk(v.geo.blockSize, Snap(v), names)
  }

  lemma MountedFacts(v: Volume, names: Table)
    requires Mounted(v, names)
    ensures v.Consistent() && v.Sound() && FsOk(v.geo.blockSize, Snap(v), names) && BlockSizeOk(v.geo.blockSize)
    ensures Snap(v) == Snapshot(v.D(), v.live, v.owner, v.groups, v.freeBlocks, v.blockBits, v.inodeBits, v.freeInodes)
    ensures NamesOk(v.geo.blockSize, v.D(), v.live, names) && v.D() == Disk(v.blocks, v.inodes)
    ensures TreeInv(v.geo.blockSize / 4, v.D(), v.live, v.owner) && v.geo.Ok()
    ensures forall i | i in v.live :: 0 < i < TWO32 && i < |v.inodes| && v.geo.IsInode(i)
  {
    hide *;
    MountedIs(v, names);
    ConsistentIs(v);
    SoundFacts(v);
    SnapIs(v);
    FsFacts(v.geo.blockSize, Snap(v), names);
    forall i | i in v.live ensures 0 < i < TWO32 { InodesAreSmall(v.geo, i); }
  }

  lemma MountedIs(v: Volume, names: Table)
    ensures Mounted(v, names) <==> v.Consistent() && FsOk(v.geo.blockSize, Snap(v), names)
  {
  }

  /** A handle on a directory of the table is an open directory, and its names are the table's. */
  lemma DirectoryOpen(v: Volume, h: FileHandle, names: Table)
    requires v.Consistent() && NamesOk(v.geo.blockSize, v.D(), v.live, names) && Open(v, h) && h.ino in names
    ensures OpenDir(v, h) && v.geo.blockSize > 0 && DirOk(Content(v.geo.blockSize, v.D(), h.ino), v.geo.blockSize)
    ensures DirMap(Content(v.geo.blockSize, v.D(), h.ino), v.geo.blockSize) == names[h.ino]
  {
    hide *;
    NamesFacts(v.geo.blockSize, v.D(), v.live, names);
    HoldingIs(v.geo.blockSize, v.D(), h.ino, names[h.ino]);
    ConsistentIs(v);
    OpenDirIntro(v, h, v.D());
  }

  // ---- space for the records of a new file ----

  lemma NeedsUntouched(bs: nat, d: Disk, d': Disk, live: set<nat>, owner: map<nat, Pos>, ino: nat, dir: nat, off: nat,
                       count: nat)
    requires BlockSizeOk(bs) && Untouched(bs / 4, d, d', live, owner, ino) && dir in live && dir != ino
      && off + count < TWO32
    ensures WriteNeeds(bs, d', dir, off, count) == WriteNeeds(bs, d, dir, off, count)
  {
    hide At, PosOk, WritePlaces, OwnersBut;
    WritePlacesOk(bs, live, dir, off, count);
    WritePlacesOk(bs, {dir}, dir, off, count);
    forall p | p in WritePlaces(bs, dir, off, count)
      ensures At(d', p) == At(d, p)
    {
      assert Place(bs / 4, live, p) && InoOf(p) == dir;
    }
  }

  /** A new inode takes no room from a directory. */
  lemma CanInsertStill(bs: nat, s: Snapshot, s': Snapshot, ino: nat, mode: bv16, dir: nat, name: Name, free: nat)
    requires Allocated(bs, s, s', ino, mode) && dir in s.live && CanInsert(bs, s.disk, dir, name, free)
    ensures CanInsert(bs, s'.disk, dir, name, free)
    ensures DirOk(Content(bs, s.disk, dir), bs)
    ensures InsertNeeds(bs, s'.disk, dir, name) == InsertNeeds(bs, s.disk, dir, name)
  {
    hide DirOk, DirMap, Content, WriteNeeds, NameOk, SameBytes, NeedLen, Untouched, FirstRoom, Tiled;
    AllocatedReads(bs, s, s', ino, mode);
    CanInsertFacts(bs, s.disk, dir, name, free);
    var c := Content(bs, s.disk, dir);
    assert Content(bs, s'.disk, dir) == c;
    if FirstRoom(c, bs, 0, NeedLen(|name|)) == |c| {
      NeedsUntouched(bs, s.disk, s'.disk, s.live, s.owner, ino, dir, |c|, bs);
    }
  }

  lemma AllocatedIntro(bs: nat, s: Snapshot, s': Snapshot, ino: nat, mode: bv16)
    requires BlockSizeOk(bs) && ino !in s.live && 0 < ino < |s.disk.inodes|
    requires s'.disk == Disk(s.disk.blocks, s.disk.inodes[ino := FreshInode(mode)])
    requires s'.live == s.live + {ino} && s'.owner == s.owner && s'.freeBlocks == s.freeBlocks
    requires SameBytes(bs, s.disk, s'.disk, s.live) && Untouched(bs / 4, s.disk, s'.disk, s.live, s.owner, ino)
    ensures Allocated(bs, s, s', ino, mode)
  {
  }

  lemma OpenAfterAllocation(v: Volume, g: FileHandle, s: Snapshot, ino: nat, mode: bv16)
    requires v.Consistent() && Allocated(v.geo.blockSize, s, Snap(v), ino, mode) && BlockSizeOk(v.geo.blockSize)
    requires TreeInv(v.geo.blockSize / 4, s.disk, s.live, s.owner)
    requires g.ino in s.live && g.ino < |s.disk.inodes| && g.inode == s.disk.inodes[g.ino]
    requires g.pbgdIndex == v.geo.InodeGroup(g.ino) < v.geo.Groups()
    requires CursorOk(v.geo.blockSize, s.disk, g.ino, g.it)
    ensures Open(v, g)
  {
    hide *;
    AllocatedIs(v.geo.blockSize, s, Snap(v), ino, mode);
    AllocatedReads(v.geo.blockSize, s, Snap(v), ino, mode);
    AllocatedUntouched(v.geo.blockSize, s, Snap(v), ino, mode);
    SnapIs(v);
    ConsistentIs(v);
    SoundFacts(v);
    VolumeDisk(v);
    CursorUntouched(v.geo.blockSize, s.disk, v.D(), s.live, s.owner, ino, g.ino, g.it);
    OpenIntro(v, g);
  }

  lemma AllocatedUntouched(bs: nat, s: Snapshot, s': Snapshot, ino: nat, mode: bv16)
    requires Allocated(bs, s, s', ino, mode)
    ensures BlockSizeOk(bs) && Untouched(bs / 4, s.disk, s'.disk, s.live, s.owner, ino)
  {
  }

  /** allocate_new_inode beside an open directory. */
  method AllocateBeside(v: Volume, hp: FileHandle, hn: FileHandle, imode: bv16, ghost names: Table) returns (ok: bool)
    requires Mounted(v, names) && Open(v, hp) && hp != hn
    modifies v`inodes, v`groups, v`inodeBits, v`live, v`freeInodes, v`dirCounts, hn
    ensures Mounted(v, names) && Open(v, hp)
    ensures v.geo.Ok() && (ok <==> AnyFree(InodeSpace(v.geo), old(v.live)))
    ensures !ok ==> unchanged(v) && unchanged(hn)
    ensures ok ==> Open(v, hn) && hn.ino != hp.ino && hn.ino !in names && hn.ino in v.live && hn.inode.links == 0
    ensures ok ==> Allocated(v.geo.blockSize, old(Snap(v)), Snap(v), hn.ino, imode) && hn.inode.mode == imode
    ensures ok ==> InodeChosen(v.geo, old(v.live), hp.ino, hn.ino)
    ensures ok ==> DirCountedUp(v.geo, old(v.dirCounts), v.dirCounts, hn.ino, IsDir(imode))
  {
    hide *;
    MountedFacts(v, names);
    OpenFacts(v, hp);
    ghost var s := Snap(v);
    ok := AllocateNewInode(v, hn, hp.pbgdIndex, imode);
    if ok {
      SnapIs(v);
      VolumeDisk(v);
      AllocatedIntro(v.geo.blockSize, s, Snap(v), hn.ino, imode);
      AllocatedKeepsFs(v.geo.blockSize, s, Snap(v), hn.ino, imode, names);
      OpenAfterAllocation(v, hp, s, hn.ino, imode);
      MountedIs(v, names);
      ConsistentIs(v);
      OpenFacts(v, hn);
      InodeChosenIntro(v.geo, s.live, hp.ino, hn.ino);
      FreshInodeEmpty(imode);
    }
  }

  lemma MountedAgain(v: Volume, names: Table, names': Table, op: Operation, s: Snapshot)
    requires v.Consistent() && FsOk(v.geo.blockSize, s, names)
      && Happens(v.geo.blockSize, op, s, names, Snap(v), names')
    ensures Mounted(v, names')
  {
    OperationKeeps(v.geo.blockSize, op, s, names, Snap(v), names');
  }

  lemma StrandIs(bs: nat, s: Snapshot, s1: Snapshot, ino: nat, mode: bv16, names: Table)
    requires Allocated(bs, s, s1, ino, mode)
    ensures Happens(bs, Strand(ino, mode), s, names, s1, names)
  {
    hide Allocated;
  }

  lemma CreatedIntro(bs: nat, s: Snapshot, s1: Snapshot, s': Snapshot, dir: nat, ino: nat, name: Name, mode: bv16,
                     names: Table)
    requires Allocated(bs, s, s1, ino, mode) && EntryMade(bs, s1, s', dir, ino, name) && NewName(names, dir, name)
      && ino < TWO32
    ensures Created(bs, s, s', dir, ino, name, mode)
    ensures Happens(bs, Create(dir, name, ino, mode), s, names, s', Adding(names, dir, name, ino))
  {
  }

  /** create_file_ext2. A name that is too long costs an inode: it has been allocated by then and stays without a
      name. */
  method CreateFile(v: Volume, hp: FileHandle, hn: FileHandle, fname: Name, imode: bv16, ghost names: Table)
      returns (ok: bool, ghost names': Table)
    requires Mounted(v, names) && Open(v, hp) && hp != hn && hp.ino in names
    requires |fname| <= 255
      ==> NewName(names, hp.ino, fname) && CanInsert(v.geo.blockSize, v.D(), hp.ino, fname, v.freeBlocks)
    modifies v, hp`inode, hp`it, hn
    ensures Mounted(v, names') && Open(v, hp)
    ensures v.geo.Ok() && (ok <==> |fname| <= 255 && AnyFree(InodeSpace(v.geo), old(v.live)))
    ensures !ok ==> names' == names && (|fname| <= 255 || !AnyFree(InodeSpace(v.geo), old(v.live)) ==> unchanged(v))
    ensures AnyFree(InodeSpace(v.geo), old(v.live)) ==> InodeChosen(v.geo, old(v.live), hp.ino, hn.ino)
    ensures |fname| > 255 && AnyFree(InodeSpace(v.geo), old(v.live)) ==>
      && hn.ino !in old(v.live) && v.live == old(v.live) + {hn.ino}
      && Happens(v.geo.blockSize, Strand(hn.ino, imode), old(Snap(v)), names, Snap(v), names')
    ensures AnyFree(InodeSpace(v.geo), old(v.live)) ==>
      DirCountedUp(v.geo, old(v.dirCounts), v.dirCounts, hn.ino, IsDir(imode))
    ensures ok ==>
      && Open(v, hn) && Happens(v.geo.blockSize, Create(hp.ino, fname, hn.ino, imode), old(Snap(v)), names, Snap(v),
                                names')
      && CanInsertNeeds(v.geo.blockSize, old(v.D()), hp.ino, fname, old(v.freeBlocks), v.freeBlocks)
  {
    hide *;
    names' := names;
    MountedFacts(v, names);
    DirectoryOpen(v, hp, names);
    NewNameIs(names, hp.ino, fname);
    ghost var bs, s := v.geo.blockSize, Snap(v);
    OpenFacts(v, hp);
    ok := AllocateBeside(v, hp, hn, imode, names);
    if !ok {
      return;
    }
    MountedFacts(v, names);
    DirectoryOpen(v, hp, names);
    if |fname| <= 255 { CanInsertStill(bs, s, Snap(v), hn.ino, imode, hp.ino, fname, v.freeBlocks); }
    ghost var s1 := Snap(v);
    SnapIs(v);
    AllocatedIs(bs, s, s1, hn.ino, imode);
    OpenDirOpen(v, hp);
    StrandIs(bs, s, s1, hn.ino, imode, names);
    ok := CreateDirEntry(v, hp, hn, fname);
    OpenDirOpen(v, hp);
    if ok {
      CreatedIntro(bs, s, s1, Snap(v), hp.ino, hn.ino, fname, imode, names);
      names' := Adding(names, hp.ino, fname, hn.ino);
      SnapIs(v);
      MountedAgain(v, names, names', Create(hp.ino, fname, hn.ino, imode), s);
      SpentByEntry(bs, s1, Snap(v), hp.ino, hn.ino, fname);
      CanInsertNeedsIs(bs, s.disk, hp.ino, fname, s.freeBlocks, v.freeBlocks);
    }
  }

  lemma OpenDirOpen(v: Volume, h: FileHandle)
    requires OpenDir(v, h)
    ensures Open(v, h) && v.Consistent()
  {
  }

  /** Exactly the blocks the directory was short of have been taken. */
  ghost predicate CanInsertNeeds(bs: nat, d: Disk, dir: nat, name: Name, free: nat, free': nat) {
    BlockSizeOk(bs) && DirOk(Content(bs, d, dir), bs) && free' + |InsertNeeds(bs, d, dir, name)| == free
  }

  lemma CanInsertNeedsIs(bs: nat, d: Disk, dir: nat, name: Name, free: nat, free': nat)
    requires BlockSizeOk(bs) && DirOk(Content(bs, d, dir), bs) && free' + |InsertNeeds(bs, d, dir, name)| == free
    ensures CanInsertNeeds(bs, d, dir, name, free, free')
  {
  }

  // ---- create_directory_ext2 ----

  /** The first record of an empty directory needs one block at most. */
  lemma FirstEntryRoom(bs: nat, d: Disk, ino: nat, free: nat)
    requires BlockSizeOk(bs) && Content(bs, d, ino) == [] && free >= 1
    ensures CanInsert(bs, d, ino, DOT, free) && DirOk(Content(bs, d, ino), bs)
  {
    hide Content, At, NeedLen;
    EmptyDir(bs);
    DotNames();
    OneBlockPlaces(bs, ino, 0, bs);
    hide WritePlaces;
    FirstPath(bs / 4, ino);
    SubsetSize(InsertNeeds(bs, d, ino, DOT), {Slot(ino, 0)});
  }

  lemma FirstPath(links: nat, ino: nat)
    requires links > 0
    ensures PathSet(links, ino, 0) == {Slot(ino, 0)}
  {
    assert ModeOf(links, 0) == 0;
    assert IndexOf(links, 0)[0] == 0;
  }

  /** "." leaves room for "..". */
  lemma SecondEntryRoom(bs: nat, d: Disk, ino: nat, ft: nat, free: nat)
    requires BlockSizeOk(bs) && 0 < ino < TWO32 && ft < 0x100 && DirOk([], bs)
    requires Content(bs, d, ino) == Inserted([], bs, ino, ft, DOT)
    ensures CanInsert(bs, d, ino, DOTDOT, free)
  {
    hide EntryAt, NameAt, Encode, DirOk, DirMap, PutRecord, NeedLen, Content;
    EmptyDir(bs);
    DotNames();
    NeedOfTwo();
    InsertedOk([], bs, ino, ft, DOT);
    var c := Inserted([], bs, ino, ft, DOT);
    var e := DirEntry(ino, bs, 1, ft);
    FirstRoomEnd([], bs, 12);
    assert c == PutRecord([], 0, e, DOT);
    PutRecordReads([], 0, e, DOT);
    DirOkFacts(c, bs);
    assert FirstRoom(c, bs, 0, 12) == 0;
  }

  lemma MadeUntouched(bs: nat, s: Snapshot, s': Snapshot, dir: nat, ino: nat, name: Name)
    requires EntryMade(bs, s, s', dir, ino, name)
    ensures BlockSizeOk(bs) && Untouched(bs / 4, s.disk, s'.disk, s.live, s.owner, dir) && s'.live == s.live
    ensures |s'.disk.inodes| == |s.disk.inodes|
    ensures forall i | 0 <= i < |s.disk.inodes| && i != dir && i != ino :: s'.disk.inodes[i] == s.disk.inodes[i]
    ensures forall i | i in s.live && i < |s.disk.inodes| :: s'.disk.inodes[i].mode == s.disk.inodes[i].mode
    ensures ino in s.live ==> s'.disk.inodes[ino].links == s.disk.inodes[ino].links + 1
    ensures forall i | i in s.live && i < |s.disk.inodes| && i != ino ::
      s'.disk.inodes[i].links == s.disk.inodes[i].links
  {
  }

  /** A handle on a file that an entry neither goes into nor names stays open. */
  lemma OpenAfterEntry(v: Volume, g: FileHandle, s: Snapshot, dir: nat, ino: nat, name: Name)
    requires v.geo.Ok() && BlockSizeOk(v.geo.blockSize)
    requires 0 < g.ino && g.ino in s.live && g.ino < |s.disk.inodes| && g.inode == s.disk.inodes[g.ino] && g.ino != dir
      && g.ino != ino
    requires g.pbgdIndex == v.geo.InodeGroup(g.ino) < v.geo.Groups()
    requires CursorOk(v.geo.blockSize, s.disk, g.ino, g.it)
    requires TreeInv(v.geo.blockSize / 4, s.disk, s.live, s.owner)
    requires EntryMade(v.geo.blockSize, s, Snap(v), dir, ino, name)
    requires v.Sound()
    ensures Open(v, g)
  {
    hide *;
    MadeUntouched(v.geo.blockSize, s, Snap(v), dir, ino, name);
    SnapIs(v);
    VolumeDisk(v);
    StaysOpen(v, g, s.disk, s.owner, dir);
  }

  /** The two entries a new directory begins with. */
  method MakeDots(v: Volume, hp: FileHandle, hn: FileHandle) returns (ghost s3: Snapshot)
    requires v.Consistent() && Open(v, hp) && Open(v, hn) && hp != hn && hp.ino != hn.ino
      && BlockSizeOk(v.geo.blockSize)
    requires Content(v.geo.blockSize, v.D(), hn.ino) == [] && v.freeBlocks >= 1
    requires hp.inode.links < 0xFFFF && hn.inode.links < 0xFFFF
    modifies v`blocks, v`inodes, v`groups, v`blockBits, v`freeBlocks, v`used, v`owner, hp`inode, hp`it, hn`inode, hn`it
    ensures v.Consistent() && Open(v, hp) && Open(v, hn)
    ensures EntryMade(v.geo.blockSize, old(Snap(v)), s3, hn.ino, hn.ino, DOT)
      && EntryMade(v.geo.blockSize, s3, Snap(v), hn.ino, hp.ino, DOTDOT)
  {
    hide *;
    ghost var bs, s2 := v.geo.blockSize, Snap(v);
    ConsistentIs(v);
    SoundFacts(v);
    SnapIs(v);
    OpenFacts(v, hp);
    OpenFacts(v, hn);
    DotNames();
    InodesAreSmall(v.geo, hn.ino);
    FirstEntryRoom(bs, v.D(), hn.ino, v.freeBlocks);
    OpenDirIntro(v, hn, v.D());
    var ok := CreateDirEntry(v, hn, hn, DOT);
    s3 := Snap(v);
    SnapIs(v);
    OpenDirOpen(v, hn);
    ConsistentIs(v);
    SoundFacts(v);
    MadeContent(bs, s2, s3, hn.ino, hn.ino, DOT);
    OpenAfterEntry(v, hp, s2, hn.ino, hn.ino, DOT);
    OpenFacts(v, hp);
    SecondEntryRoom(bs, v.D(), hn.ino, FileType(s2.disk.inodes[hn.ino].mode), v.freeBlocks);
    ok := CreateDirEntry(v, hn, hp, DOTDOT);
    OpenDirOpen(v, hn);
  }

  lemma MadeDirectoryIntro(bs: nat, s: Snapshot, s1: Snapshot, s2: Snapshot, s3: Snapshot, s': Snapshot, dir: nat,
                           ino: nat, name: Name, mode: bv16, names: Table)
    requires Allocated(bs, s, s1, ino, mode) && EntryMade(bs, s1, s2, dir, ino, name)
    requires EntryMade(bs, s2, s3, ino, ino, DOT) && EntryMade(bs, s3, s', ino, dir, DOTDOT)
    requires NewName(names, dir, name) && ino < TWO32 && 0 < dir < TWO32 && dir != ino
    ensures MadeDirectory(bs, s, s', dir, ino, name, mode)
    ensures Happens(bs, MakeDirectory(dir, name, ino, mode), s, names, s', WithDirectory(names, dir, name, ino))
  {
    hide Allocated, EntryMade, NewName, WithDirectory;
  }

  /** imode |= EXT2_S_IFDIR; imode &= ~EXT2_S_IFREG */
  function DirectoryMode(imode: bv16): (m: bv16)
    ensures IsDir(m) && !IsReg(m)
    ensures m & 0x4000 != 0 && m & 0x8000 == 0 && m & 0x3FFF == imode & 0x3FFF
  {
    (imode | EXT2_S_IFDIR) & !EXT2_S_IFREG
  }

  /** create_directory_ext2. */
  method CreateDirectory(v: Volume, hp: FileHandle, hn: FileHandle, fname: Name, imode: bv16, ghost names: Table)
    returns (ok: bool, ghost names': Table)
    requires Mounted(v, names) && Open(v, hp) && hp != hn && hp.ino in names && hp.inode.links < 0xFFFF
    requires |fname| <= 255 ==>
      && NewName(names, hp.ino, fname)
      && CanInsert(v.geo.blockSize, v.D(), hp.ino, fname, v.freeBlocks)
      && v.freeBlocks >= 1 && CanInsert(v.geo.blockSize, v.D(), hp.ino, fname, v.freeBlocks - 1)
    modifies v, hp`inode, hp`it, hn
    ensures Mounted(v, names') && Open(v, hp)
    ensures v.geo.Ok() && (ok <==> |fname| <= 255 && AnyFree(InodeSpace(v.geo), old(v.live)))
    ensures !ok ==> names' == names && (|fname| <= 255 || !AnyFree(InodeSpace(v.geo), old(v.live)) ==> unchanged(v))
    ensures AnyFree(InodeSpace(v.geo), old(v.live)) ==> InodeChosen(v.geo, old(v.live), hp.ino, hn.ino)
    ensures |fname| > 255 && AnyFree(InodeSpace(v.geo), old(v.live)) ==>
      && hn.ino !in old(v.live) && v.live == old(v.live) + {hn.ino}
      && Happens(v.geo.blockSize, Strand(hn.ino, DirectoryMode(imode)), old(Snap(v)), names, Snap(v), names')
    ensures AnyFree(InodeSpace(v.geo), old(v.live)) ==>
      DirCountedUp(v.geo, old(v.dirCounts), v.dirCounts, hn.ino, true)
    ensures ok ==>
      && Open(v, hn)
      && Happens(v.geo.blockSize, MakeDirectory(hp.ino, fname, hn.ino, DirectoryMode(imode)), old(Snap(v)), names,
                 Snap(v), names')
  {
    hide *;
    names' := names;
    MountedFacts(v, names);
    DirectoryOpen(v, hp, names);
    NewNameIs(names, hp.ino, fname);
    ghost var bs, s, mode := v.geo.blockSize, Snap(v), DirectoryMode(imode);
    OpenFacts(v, hp);
    ok := AllocateBeside(v, hp, hn, DirectoryMode(imode), names);
    if !ok {
      return;
    }
    MountedFacts(v, names);
    DirectoryOpen(v, hp, names);
    ghost var s1 := Snap(v);
    AllocatedReads(bs, s, s1, hn.ino, mode);
    AllocatedIs(bs, s, s1, hn.ino, mode);
    if |fname| <= 255 {
      CanInsertStill(bs, s, s1, hn.ino, mode, hp.ino, fname, v.freeBlocks);
      CanInsertStill(bs, s, s1, hn.ino, mode, hp.ino, fname, v.freeBlocks - 1);
      CanInsertFacts(bs, s1.disk, hp.ino, fname, v.freeBlocks - 1);
    }
    StrandIs(bs, s, s1, hn.ino, mode, names);
    ok := CreateDirEntry(v, hp, hn, fname);
    OpenDirOpen(v, hp);
    if !ok {
      return;
    }
    ghost var s2 := Snap(v);
    SnapIs(v);
    SpentByEntry(bs, s1, s2, hp.ino, hn.ino, fname);
    MadeContent(bs, s1, s2, hp.ino, hn.ino, fname);
    OtherReads(bs, s1.disk, s2.disk, s1.live, hp.ino, hn.ino);
    EntryLinks(v, hp, hn, s1, s2, fname);
    ghost var s3 := MakeDots(v, hp, hn);
    MadeDirectoryIntro(bs, s, s1, s2, s3, Snap(v), hp.ino, hn.ino, fname, mode, names);
    names' := WithDirectory(names, hp.ino, fname, hn.ino);
    MountedAgain(v, names, names', MakeDirectory(hp.ino, fname, hn.ino, mode), s);
  }

  lemma EntryLinks(v: Volume, hp: FileHandle, hn: FileHandle, s1: Snapshot, s2: Snapshot, name: Name)
    requires v.Consistent() && Open(v, hp) && Open(v, hn) && hp.ino != hn.ino && s2 == Snap(v)
    requires EntryMade(v.geo.blockSize, s1, s2, hp.ino, hn.ino, name) && hp.ino in s1.live && hn.ino in s1.live
    requires hp.ino < |s1.disk.inodes| && hn.ino < |s1.disk.inodes|
    ensures hp.inode.links == s1.disk.inodes[hp.ino].links && hn.inode.links == s1.disk.inodes[hn.ino].links + 1
  {
    hide *;
    ConsistentIs(v);
    OpenFacts(v, hp);
    OpenFacts(v, hn);
    SnapIs(v);
    MadeUntouched(v.geo.blockSize, s1, s2, hp.ino, hn.ino, name);
  }

  // ---- unlink_file_ext2 ----

  lemma Unlinkable(v: Volume, h: FileHandle, names: Table, name: Name)
    requires v.Consistent() && FsOk(v.geo.blockSize, Snap(v), names) && Open(v, h) && h.ino in names
    requires name != [] && name != DOT
    ensures OpenDir(v, h) && CanUnlink(v.geo.blockSize, v.D(), v.live, h.ino, name)
    ensures v.geo.blockSize > 0 && DirOk(Content(v.geo.blockSize, v.D(), h.ino), v.geo.blockSize)
    ensures DirMap(Content(v.geo.blockSize, v.D(), h.ino), v.geo.blockSize) == names[h.ino]
  {
    hide *;
    FsFacts(v.geo.blockSize, Snap(v), names);
    SnapIs(v);
    VolumeDisk(v);
    DirectoryOpen(v, h, names);
    if name in names[h.ino] {
      assert (h.ino, name) != (names[h.ino][name], DOT);
      NamedStays(v.geo.blockSize, Snap(v), names, h.ino, name);
    }
    CanUnlinkIntro(v.geo.blockSize, v.D(), v.live, h.ino, name);
  }

  lemma CanUnlinkIntro(bs: nat, d: Disk, live: set<nat>, dir: nat, name: Name)
    requires BlockSizeOk(bs) && DirOk(Content(bs, d, dir), bs) && name != []
    requires name in DirMap(Content(bs, d, dir), bs) ==>
          var t := DirMap(Content(bs, d, dir), bs)[name];
          t in live && t < |d.inodes| && d.inodes[t].links > 0 && (t == dir ==> d.inodes[t].links > 1)
    ensures CanUnlink(bs, d, live, dir, name)
  {
  }

  /** unlink_file_ext2 on the namespace. */
  method UnlinkFile(v: Volume, h: FileHandle, fname: Name, ghost names: Table) returns (ok: bool, ghost names': Table)
    requires Mounted(v, names) && Open(v, h) && h.ino in names
    requires fname != [] && fname != DOT && fname != DOTDOT
    modifies v, h
    ensures Mounted(v, names') && Open(v, h) && h.ino == old(h.ino)
    ensures ok <==> fname in names[h.ino]
    ensures !ok ==> names' == names && Snap(v) == old(Snap(v))
    ensures v.dirCounts == old(v.dirCounts)
    ensures ok ==>
      && Happens(v.geo.blockSize, RemoveName(h.ino, fname), old(Snap(v)), names, Snap(v), names')
      && (names[h.ino][fname] !in v.live <==> Refs(names, names[h.ino][fname]) == {(h.ino, fname)})
  {
    hide *;
    names' := names;
    MountedFacts(v, names);
    Unlinkable(v, h, names, fname);
    ghost var bs, s := v.geo.blockSize, Snap(v);
    ok := Unlink(v, h, fname);
    if !ok {
      MountedIs(v, names);
      return;
    }
    OwnNameIs(names, h.ino, fname);
    UnlinkHappens(bs, s, Snap(v), h.ino, fname, names);
    SnapIs(v);
    UnlinkedKeeps(bs, s, Snap(v), h.ino, fname, names);
    names' := Removing(names, h.ino, fname);
    MountedIs(v, names');
  }

  lemma UnlinkHappens(bs: nat, s: Snapshot, s': Snapshot, dir: nat, name: Name, names: Table)
    requires OwnName(names, dir, name) && Unlinked(bs, s, s', dir, name)
    ensures Happens(bs, RemoveName(dir, name), s, names, s', Removing(names, dir, name))
  {
    hide OwnName, Unlinked, Removing;
  }

  // ---- delete_directory_ext2 ----

  /** lookup_last_in_dir_ext2. */
  method LookupLast(v: Volume, h: FileHandle) returns (offsetLast: nat)
    requires OpenDir(v, h)
    modifies v`inodes, h`it
    ensures OpenDir(v, h) && v.inodes == old(v.inodes) && v.D() == old(v.D())
    ensures v.geo.blockSize > 0
    ensures DirBytes(v, h) != [] ==>
      && RecordIn(DirBytes(v, h), v.geo.blockSize, offsetLast)
      && offsetLast + EntryAt(DirBytes(v, h), offsetLast).recLen == |DirBytes(v, h)|
  {
    hide *;
    OpenDirFacts(v, h);
    ghost var c, bs := DirBytes(v, h), v.geo.blockSize;
    DirOkFacts(c, bs);
    Advance(v, h, 0);
    var dirOffset, e, name := 0, DirEntry(0, 0, 0, 0), [];
    offsetLast := 0;
    while dirOffset < h.inode.size
      invariant v.Sound() && Open(v, h) && v.inodes == old(v.inodes) && v.D() == old(v.D()) && h.inode.size == |c|
      invariant DirBytes(v, h) == c
      invariant 0 <= dirOffset <= |c| && Tiled(c, bs, 0, dirOffset) && Tiled(c, bs, dirOffset, |c|)
      invariant dirOffset > 0 ==> RecordIn(c, bs, offsetLast) && offsetLast + EntryAt(c, offsetLast).recLen == dirOffset
      decreases |c| - dirOffset
    {
      WalkStep(c, bs, dirOffset);
      offsetLast := dirOffset;
      e, name, dirOffset := Readdir(v, h, dirOffset);
      BytesIs(v, h);
    }
    BytesIs(v, h);
    OpenDirIntro(v, h, old(v.D()));
  }

  /** The record at o is the last one. */
  ghost predicate LastAt(c: seq<byte>, bs: nat, o: nat) {
    bs > 0 && RecordIn(c, bs, o) && o + EntryAt(c, o).recLen == |c|
  }

  lemma OneLast(c: seq<byte>, bs: nat, o: nat, o': nat)
    requires LastAt(c, bs, o) && LastAt(c, bs, o')
    ensures o == o'
  {
    hide EntryAt, RecOk, Tiled;
    if o < o' {
      TiledSplit(c, bs, 0, o, o');
      TiledNext(c, bs, o, o');
    } else if o' < o {
      TiledSplit(c, bs, 0, o', o);
      TiledNext(c, bs, o', o);
    }
  }

  /** The test of delete_directory_ext2: when the last record starts at byte 12 there are just "." and "..". */
  lemma TwoRecords(c: seq<byte>, bs: nat, self: nat, parent: nat)
    requires 0 < bs <= 2048 && DirOk(c, bs) && Dots(c, self, parent) && RecordIn(c, bs, 12)
      && 12 + EntryAt(c, 12).recLen == |c|
    ensures DirMap(c, bs).Keys == {DOT, DOTDOT}
  {
    hide NamesAt, RecOk, NeedPositive, DirOk;
    DirOkFacts(c, bs);
    NamesInDir(c, bs, 12);
    WalkStep(c, bs, 0);
    hide Tiled, NameMap;
    TiledJoin(c, bs, 0, 12, |c|);
    DotRecords(c, self, parent);
  }

  lemma DotRecords(c: seq<byte>, self: nat, parent: nat)
    requires Dots(c, self, parent)
    ensures EntryAt(c, 0).recLen == 12 && NamesAt(c, 0).Keys == {DOT} && NamesAt(c, 12).Keys == {DOTDOT}
  {
  }

  // ---- in and out again ----

  /** With its last record at byte 12 a directory has no other records than those at 0 and 12. */
  lemma OnlyTwo(c: seq<byte>, bs: nat, self: nat, parent: nat, r: nat)
    requires bs > 0 && Dots(c, self, parent) && LastAt(c, bs, 12) && RecordIn(c, bs, r)
    ensures r == 0 || r == 12
  {
    hide EntryAt, RecOk, NameAt, NeedPositive, Dots;
    DotsPositions(c, bs, self, parent, r);
    if r >= 24 {
      TiledSplit(c, bs, 0, 12, r);
      TiledNext(c, bs, 12, r);
    }
  }

  /** Where the new record goes when the last one starts at byte 12: behind "..", in the same block. */
  lemma ThirdRecord(bs: nat, c: seq<byte>, c': seq<byte>, self: nat, parent: nat, ino: nat, fileType: nat, name: Name,
                    o: nat)
    requires (bs == 1024 || bs == 2048) && DirOk(c, bs) && Dots(c, self, parent) && LastAt(c, bs, 12) && NameOk(name)
    requires MadeAt(bs, c, c', ino, fileType, name, o)
    ensures o == 12 && |c'| == |c| == bs
    ensures EntryAt(c', 12) == EntryAt(c, 12).(recLen := 12)
    ensures EntryAt(c', 24) == DirEntry(ino, bs - 24, |name|, fileType) && NameAt(c', 24) == name
  {
    NameFits(name);
    DotsSpare(c, self, parent);
    LastLength(c, bs);
    hide EntryAt, NameAt, RecOk, NeedPositive, Dots, Tiled, HeaderAt, DirOk, Kept, NameOk;
    assert o < 12 ==> o == 0 by {
      if o < 12 { OnlyTwo(c, bs, self, parent, o); }
    }
    assert Spare(c, 12) >= 264 >= Taking(|name|);
    assert o == 12;
    EntryOfBytes(c', 24, ino, bs - 24, |name|, fileType);
    EntryOfBytes(c', 12, EntryAt(c, 12).inode, 12, EntryAt(c, 12).nameLen, EntryAt(c, 12).fileType);
    NameFromBytes(c', 24, name);
  }

  lemma NameFromBytes(c: seq<byte>, o: nat, name: Name)
    requires EntryAt(c, o).nameLen == |name| && o + 8 + |name| <= |c| && c[o + 8..o + 8 + |name|] == name
    ensures NameAt(c, o) == name
  {
    hide EntryAt;
  }

  lemma DotsSpare(c: seq<byte>, self: nat, parent: nat)
    requires Dots(c, self, parent)
    ensures Kept(c, 0) == 12 == EntryAt(c, 0).recLen && Kept(c, 12) == 12 && EntryAt(c, 12).inode != 0
    ensures EntryAt(c, 0).inode != 0 && NameAt(c, 0) == DOT && NameAt(c, 12) == DOTDOT && |c| >= 24
  {
    hide EntryAt, NameAt;
  }

  lemma LastLength(c: seq<byte>, bs: nat)
    requires (bs == 1024 || bs == 2048) && DirOk(c, bs) && LastAt(c, bs, 12)
    ensures |c| == bs && EntryAt(c, 12).recLen == bs - 12
  {
    hide EntryAt, NameAt, Tiled, Distinct;
  }

  /** A name entered into a directory with just its dots and taken out again leaves it as it has to be for rmdir: the
      last record starts at byte 12. */
  lemma LastAgain(bs: nat, c: seq<byte>, c1: seq<byte>, c2: seq<byte>, self: nat, parent: nat, ino: nat, fileType: nat,
                  name: Name)
    requires bs == 1024 || bs == 2048
    requires DirOk(c, bs) && Dots(c, self, parent) && LastAt(c, bs, 12) && NameOk(name) && name != DOT && name != DOTDOT
    requires DirOk(c1, bs) && Dots(c1, self, parent) && RecordMade(bs, c, c1, ino, fileType, name)
    requires NameRemoved(bs, c1, c2, name)
    ensures LastAt(c2, bs, 12)
  {
    hide *;
    var o := PlaceMade(bs, c, c1, ino, fileType, name);
    ThirdRecord(bs, c, c1, self, parent, ino, fileType, name, o);
    DotsSpare(c1, self, parent);
    RemovedBytes(bs, c1, c2, name);
    var p, g := PlaceGone(bs, c1, c2, name);
    ThirdGone(bs, c1, c2, self, parent, name, p, g);
    RemovedStill(bs, c1, c2, self, parent, name);
    DotsSpare(c2, self, parent);
    DirOkFacts(c2, bs);
    WalkStep(c2, bs, 0);
    WalkStep(c2, bs, 12);
    LastIs(c2, bs);
  }

  lemma LastIs(c: seq<byte>, bs: nat)
    requires bs > 0 && RecordIn(c, bs, 12) && 12 + EntryAt(c, 12).recLen == |c|
    ensures LastAt(c, bs, 12)
  {
    hide RecordIn, EntryAt;
  }

  lemma RemovedBytes(bs: nat, c: seq<byte>, c': seq<byte>, name: Name)
    requires NameRemoved(bs, c, c', name)
    ensures RecordGone(bs, c, c', name)
  {
  }

  lemma RemovedStill(bs: nat, c: seq<byte>, c': seq<byte>, self: nat, parent: nat, name: Name)
    requires NameRemoved(bs, c, c', name) && Dots(c, self, parent) && name != DOT && name != DOTDOT
    ensures bs > 0 && DirOk(c', bs) && Dots(c', self, parent) && |c'| == |c|
  {
    DotsSpare(c, self, parent);
    hide Dots, DirOk, DirMap, FirstKept, RecordGone, EntryAt, NameAt;
  }

  lemma ThirdGone(bs: nat, c: seq<byte>, c': seq<byte>, self: nat, parent: nat, name: Name, p: nat, o: nat)
    requires (bs == 1024 || bs == 2048) && Dots(c, self, parent) && |c| == bs && name != DOT && name != DOTDOT
    requires EntryAt(c, 12).recLen == 12 && EntryAt(c, 24).recLen == bs - 24 && GoneAt(bs, c, c', name, p, o)
    ensures EntryAt(c', 12).recLen == bs - 12 && |c'| == bs
  {
    DotsSpare(c, self, parent);
    hide EntryAt, NameAt, RecOk, NeedPositive, Dots, Tiled, HeaderAt, RecordAt;
    ThreePlaces(c, bs, self, parent, o);
    assert o == 24;
    ThreePlaces(c, bs, self, parent, p);
    assert p == 12;
    EntryOfBytes(c', 12, EntryAt(c, 12).inode, bs - 12, EntryAt(c, 12).nameLen, EntryAt(c, 12).fileType);
  }

  lemma ThreePlaces(c: seq<byte>, bs: nat, self: nat, parent: nat, r: nat)
    requires bs > 0 && Dots(c, self, parent) && |c| == bs && RecordIn(c, bs, r)
    requires EntryAt(c, 12).recLen == 12 && EntryAt(c, 24).recLen == bs - 24
    ensures r == 0 || r == 12 || r == 24
  {
    DotsSpare(c, self, parent);
    hide EntryAt, RecOk, NameAt, NeedPositive, Dots;
    DotsPositions(c, bs, self, parent, r);
    if r > 24 {
      TiledNext(c, bs, 0, r);
      TiledNext(c, bs, 12, r);
      TiledNext(c, bs, 24, r);
    }
  }

  /** A group descriptor whose directory count alone has changed. */
  lemma DirectoryCount(v: Volume, groups: seq<GroupDesc>, g: nat, desc: GroupDesc)
    requires g < |groups| && v.groups == groups[g := desc]
    requires desc.freeBlocks == groups[g].freeBlocks && desc.freeInodes == groups[g].freeInodes
    ensures BlockCounts(v.groups) == BlockCounts(groups) && InodeCounts(v.groups) == InodeCounts(groups)
  {
  }

  lemma OneDown(geo: Geometry, groups: seq<GroupDesc>, g: nat, desc: GroupDesc, ino: nat)
    requires geo.Ok() && geo.IsInode(ino) && g == geo.InodeGroup(ino) < |groups|
    requires desc.usedDirs == (groups[g].usedDirs + 0xFFFF) % 0x1_0000
    ensures DirCountedDown(geo, DirCounts(groups), DirCounts(groups[g := desc]), ino, true)
  {
    hide Geometry.Ok, Geometry.IsInode, Geometry.InodeGroup;
  }

  /** A mkdir counts up in the group of the new directory, an rmdir counts down in the group of its parent: after both
      the counts are what they were exactly when the two are one group. */
  lemma DirCountsBack(geo: Geometry, c0: seq<nat>, c1: seq<nat>, c2: seq<nat>, dir: nat, ino: nat)
    requires DirCountedUp(geo, c0, c1, ino, true) && DirCountedDown(geo, c1, c2, dir, true)
    requires forall g | 0 <= g < |c0| :: c0[g] < 0x1_0000
    ensures c2 == c0 <==> geo.InodeGroup(dir) == geo.InodeGroup(ino)
  {
    var g, k := geo.InodeGroup(ino), geo.InodeGroup(dir);
    hide Geometry.Ok, Geometry.IsInode, Geometry.InodeGroup;
    assert c1[g] == (c0[g] + 1) % 0x1_0000 != c0[g];
    if g == k {
      assert c2 == c0;
    } else {
      assert c2[g] == c1[g];
    }
  }

  /** `--filp_dir->pbgd->bg_used_dirs_count; write_bgdesc_ext2(...)`: writes the descriptor the handle holds. The free
      counters in it are those of the volume, so only the directory count changes. */
  method CountDirectoryDown(v: Volume, h: FileHandle)
    requires v.Consistent() && Open(v, h) && h.pbgdIndex < |v.groups| && h.pbgd == v.groups[h.pbgdIndex]
    modifies v`groups, v`dirCounts, h`pbgd
    ensures v.Consistent() && Open(v, h)
    ensures DirCountedDown(v.geo, old(v.dirCounts), v.dirCounts, h.ino, true)
    ensures Snap(v) == old(Snap(v)).(groups := v.groups)
    ensures BlockCounts(v.groups) == old(BlockCounts(v.groups)) && InodeCounts(v.groups) == old(InodeCounts(v.groups))
  {
    hide *;
    ConsistentIs(v);
    SoundFacts(v);
    OpenFacts(v, h);
    SnapIs(v);
    AccountedFacts(v);
    ghost var groups := v.groups;
    h.pbgd := h.pbgd.(usedDirs := (h.pbgd.usedDirs + 0xFFFF) % 0x1_0000);
    v.groups := v.groups[h.pbgdIndex := h.pbgd];
    v.dirCounts := DirCounts(v.groups);
    DirectoryCount(v, groups, h.pbgdIndex, h.pbgd);
    OneDown(v.geo, groups, h.pbgdIndex, h.pbgd, h.ino);
    AccountedIntro(v);
    SnapIs(v);
    VolumeDisk(v);
    SoundIntro(v);
    ConsistentIs(v);
    OpenIntro(v, h);
  }

  lemma DirectoryGone(bs: nat, s: Snapshot, s1: Snapshot, s2: Snapshot, s3: Snapshot, s': Snapshot, dir: nat,
                      name: Name, a: nat, names: Table)
    requires FsOk(bs, s, names) && Removable(names, dir, name) && a == names[dir][name]
    requires Unlinked(bs, s, s1, a, DOTDOT) && Unlinked(bs, s1, s2, a, DOT) && Unlinked(bs, s2, s3, dir, name)
    requires s' == s3.(groups := s'.groups)
    ensures RemovedDirectory(bs, s, s', dir, name, a) && dir in names - {a}
    ensures Happens(bs, RemoveDirectory(dir, name), s, names, s', Removing(names - {a}, dir, name))
  {
    hide FsOk, Unlinked, Removing;
  }

  /** The two unlinks inside the directory that is being removed. */
  method UnlinkDots(v: Volume, f: FileHandle, ghost dir: nat, ghost name: Name, ghost names: Table)
      returns (ghost s1: Snapshot)
    requires v.Consistent() && FsOk(v.geo.blockSize, Snap(v), names) && Open(v, f)
    requires Removable(names, dir, name) && f.ino == names[dir][name]
    modifies v, f
    ensures v.Consistent() && f.ino == old(f.ino) && v.dirCounts == old(v.dirCounts)
    ensures Unlinked(v.geo.blockSize, old(Snap(v)), s1, f.ino, DOTDOT)
      && Unlinked(v.geo.blockSize, s1, Snap(v), f.ino, DOT)
    ensures FsOk(v.geo.blockSize, Snap(v), names - {f.ino})
  {
    hide *;
    ghost var bs, s, a := v.geo.blockSize, Snap(v), f.ino;
    RemovableIs(names, dir, name);
    DotNames();
    FsFacts(bs, s, names);
    DotKeys(names[a]);
    Unlinkable(v, f, names, DOTDOT);
    var ok := Unlink(v, f, DOTDOT);
    s1 := Snap(v);
    SnapIs(v);
    VolumeDisk(v);
    ParentLinkGone(bs, s, s1, a, dir, name, names);
    ghost var n1 := Removing(names, a, DOTDOT);
    RemovingIs(names, a, DOTDOT);
    DirectoryOpen(v, f, n1);
    assert DOT in n1[a] && n1[a][DOT] == a;
    CanUnlinkIntro(bs, v.D(), v.live, a, DOT);
    ok := Unlink(v, f, DOT);
    assert n1 - {a} == names - {a};
    SelfLinkGone(bs, s1, Snap(v), a, dir, name, n1);
  }

  lemma DotKeys(entries: map<Name, nat>)
    requires entries.Keys == {DOT, DOTDOT}
    ensures DOT in entries && DOTDOT in entries
  {
  }

  /** delete_directory_ext2: removes a directory only when it consists of two records; `removed` says whether it did. */
  method DeleteDirectory(v: Volume, h: FileHandle, fname: Name, ghost names: Table)
      returns (removed: bool, ghost names': Table)
    requires Mounted(v, names) && Open(v, h) && h.ino in names
    requires fname != [] && fname != DOT && fname != DOTDOT
    requires fname in names[h.ino] ==> names[h.ino][fname] in names && names[h.ino][fname] != h.ino
    modifies v, h
    ensures Mounted(v, names') && Open(v, h) && h.ino == old(h.ino)
    ensures removed ==>
      && Removable(names, h.ino, fname)
      && Happens(v.geo.blockSize, RemoveDirectory(h.ino, fname), old(Snap(v)), names, Snap(v), names')
    ensures removed <==>
      fname in names[h.ino] && BlockSizeOk(v.geo.blockSize)
      && LastAt(Content(v.geo.blockSize, old(v.D()), names[h.ino][fname]), v.geo.blockSize, 12)
    ensures !removed ==> names' == names && Snap(v) == old(Snap(v)) && v.dirCounts == old(v.dirCounts)
    ensures removed ==> DirCountedDown(v.geo, old(v.dirCounts), v.dirCounts, h.ino, true)
  {
    hide *;
    names' := names;
    removed := false;
    MountedFacts(v, names);
    DirectoryOpen(v, h, names);
    ghost var bs, s := v.geo.blockSize, Snap(v);
    BytesIs(v, h);
    var found, e, o, p := LookupName(v, h, fname);
    BytesIs(v, h);
    SnapIs(v);
    OpenDirOpen(v, h);
    MountedIs(v, names);
    if !found {
      return;
    }
    MountedFacts(v, names);
    FsFacts(bs, Snap(v), names);
    ghost var a := names[h.ino][fname];
    assert a == e.inode;
    NamesFacts(bs, v.D(), v.live, names);
    var f := new FileHandle();
    ReadInode(v, f, e.inode);
    DirectoryOpen(v, f, names);
    BytesIs(v, f);
    var offsetLast := LookupLast(v, f);
    BytesIs(v, f);
    SnapIs(v);
    OpenDirOpen(v, f);
    OpenDirOpen(v, h);
    MountedIs(v, names);
    DotsIn(bs, v.D(), names, a);
    LastFound(DirBytes(v, f), bs, offsetLast, a, names[a][DOTDOT]);
    if offsetLast != 8 + 4 {
      return;
    }
    TwoRecordsHere(DirBytes(v, f), bs, a, names[a][DOTDOT]);
    RemovableIntro(names, h.ino, fname);
    ghost var s1 := UnlinkDots(v, f, h.ino, fname, names);
    ghost var s2 := Snap(v);
    SnapIs(v);
    FsFacts(bs, s2, names - {a});
    NamesFacts(bs, v.D(), v.live, names - {a});
    ConsistentIs(v);
    ReadInode(v, h, h.ino);
    Unlinkable(v, h, names - {a}, fname);
    var ok := Unlink(v, h, fname);
    ghost var s3 := Snap(v);
    CountDirectoryDown(v, h);
    removed := true;
    DirectoryGone(bs, s, s1, s2, s3, Snap(v), h.ino, fname, a, names);
    names' := Removing(names - {a}, h.ino, fname);
    MountedAgain(v, names, names', RemoveDirectory(h.ino, fname), s);
  }

  lemma TwoRecordsHere(c: seq<byte>, bs: nat, self: nat, parent: nat)
    requires BlockSizeOk(bs) && DirOk(c, bs) && Dots(c, self, parent)
    requires c != [] ==> RecordIn(c, bs, 12) && 12 + EntryAt(c, 12).recLen == |c|
    ensures DirMap(c, bs).Keys == {DOT, DOTDOT}
  {
    TwoRecords(c, bs, self, parent);
  }

  lemma LastFound(c: seq<byte>, bs: nat, o: nat, self: nat, parent: nat)
    requires bs > 0 && Dots(c, self, parent)
    requires c != [] ==> RecordIn(c, bs, o) && o + EntryAt(c, o).recLen == |c|
    ensures o == 12 <==> LastAt(c, bs, 12)
  {
    hide EntryAt, NameAt, RecordIn;
    if LastAt(c, bs, 12) { OneLast(c, bs, o, 12); }
  }

  lemma RemovableIntro(names: Table, dir: nat, name: Name)
    requires dir in names && name in names[dir] && name != DOT && name != DOTDOT
    requires names[dir][name] in names && names[dir][name] != dir && names[names[dir][name]].Keys == {DOT, DOTDOT}
    ensures Removable(names, dir, name)
  {
  }

  // ---- write_file_ext2 ----

  /** write_file_ext2 on a file that is no directory: its content changes as WriteFile says, the namespace does not. */
  method WriteNamed(v: Volume, h: FileHandle, buf: seq<byte>, offset: nat, ghost names: Table) returns (nwrt: nat)
    requires Mounted(v, names) && Open(v, h) && h.ino !in names
    requires offset + |buf| < TWO32 && BlockSizeOk(v.geo.blockSize)
    requires |WriteNeeds(v.geo.blockSize, v.D(), h.ino, offset, |buf|)| <= v.freeBlocks
    modifies v`blocks, v`inodes, v`groups, v`blockBits, v`freeBlocks, v`used, v`owner, h`inode, h`it
    ensures Mounted(v, names) && Open(v, h) && nwrt == |buf|
    ensures Content(v.geo.blockSize, v.D(), h.ino) == Overlay(Content(v.geo.blockSize, old(v.D()), h.ino), offset, buf)
    ensures Happens(v.geo.blockSize, Write(h.ino), old(Snap(v)), names, Snap(v), names)
    ensures Changed(v.geo.blockSize, old(v.D()), old(v.owner), v.D(), v.owner, v.live, h.ino)
    ensures v.freeBlocks + |WriteNeeds(v.geo.blockSize, old(v.D()), h.ino, offset, |buf|)| == old(v.freeBlocks)
    ensures v.freeBlocks + |v.owner| == old(v.freeBlocks) + |old(v.owner)|
  {
    hide *;
    MountedFacts(v, names);
    FreePlusOwned(v);
    OpenFacts(v, h);
    ghost var bs, s := v.geo.blockSize, Snap(v);
    nwrt := WriteFile(v, h, buf, offset);
    ChangedIs(bs, s.disk, s.owner, v.D(), v.owner, v.live, h.ino);
    SnapIs(v);
    WriteHappens(bs, s, Snap(v), h.ino, names);
    ConsistentIs(v);
    FreePlusOwned(v);
    MountedAgain(v, names, names, Write(h.ino), s);
  }

  lemma WriteHappens(bs: nat, s: Snapshot, s': Snapshot, ino: nat, names: Table)
    requires BlockSizeOk(bs) && ino in s.live && ino !in names && OnlyContent(bs, s.disk, s'.disk, s.live, ino)
      && s'.live == s.live
    ensures Happens(bs, Write(ino), s, names, s', names)
  {
    hide OnlyContent;
  }

  /** A handle on another file stays open. */
  lemma OpenAfterWrite(v: Volume, g: FileHandle, d: Disk, owner: map<nat, Pos>, ino: nat)
    requires v.geo.Ok() && BlockSizeOk(v.geo.blockSize)
    requires 0 < g.ino && g.ino in v.live && g.ino < |d.inodes| && g.inode == d.inodes[g.ino] && g.ino != ino
    requires g.pbgdIndex == v.geo.InodeGroup(g.ino) < v.geo.Groups()
    requires CursorOk(v.geo.blockSize, d, g.ino, g.it) && TreeInv(v.geo.blockSize / 4, d, v.live, owner)
    requires Changed(v.geo.blockSize, d, owner, v.D(), v.owner, v.live, ino) && v.Sound()
    ensures Open(v, g)
  {
    hide *;
    ChangedReads(v.geo.blockSize, d, owner, v.D(), v.owner, v.live, ino);
    VolumeDisk(v);
    StaysOpen(v, g, d, owner, ino);
  }
}
