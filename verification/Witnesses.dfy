/** Inputs on which the code does not do what one would expect of it: one for each of the conditions proved
    elsewhere. */
module Witnesses {
  import opened Bytes
  import opened BlockIndex
  import opened Layout
  import opened Accounting
  import opened Tree
  import opened Contents
  import opened Volumes
  import opened FileHandles
  import opened Grafting
  import opened NewInodes
  import opened DirRecords
  import opened Directories
  import opened Unlinking
  import opened Names
  import opened Operations
  import opened Namespace
  import opened FirstDirectory

  /** A layout with s_first_data_block 1 whose last bit names block 64 of a device of 64 blocks, 0 to 63. */
  lemma LastBitBehindDevice(geo: Geometry)
    requires geo == Geometry(1024, 64, 1, 8192, 8, [6])
    ensures geo.Ok() && geo.Groups() == 1 && geo.FirstBit(0) == 6 && geo.LastBit(0) == 63
    ensures geo.BlockNo(0, geo.LastBit(0)) == 64 == geo.blocksCount && geo.DataBlock(64)
  {
    OneGroupIs(geo);
    LastBlock(geo);
  }

  lemma LastBlock(geo: Geometry)
    requires geo.Ok() && geo.Groups() == 1 && geo.FirstBit(0) <= geo.LastBit(0)
    ensures geo.BlockNo(0, geo.LastBit(0)) == geo.LastBit(0) + geo.firstDataBlock
    ensures geo.DataBlock(geo.LastBit(0) + geo.firstDataBlock)
  {
    BlockAddressInverse(geo, 0, geo.LastBit(0));
  }

  /** On such a device the last bit has to be preset: a mounted volume on which it is, so that no file ever gets block
      64. */
  method LastBitReserved() returns (v: Volume, h: FileHandle)
    ensures v.geo == Geometry(1024, 64, 1, 8192, 8, [6]) && v.reserved == {64}
    ensures Mounted(v, RootTable(h.ino)) && Open(v, h)
  {
    var geo := Geometry(1024, 64, 1, 8192, 8, [6]);
    hide *;
    LastBitBehindDevice(geo);
    OneGroup(geo);
    v := PresetVolume(geo);
    var ok;
    h, ok := MakeRoot(v);
  }

  /** A file without a block is short of two at block 12, the first one behind an index block: one free block, which the
      guard of allocate_new_data_block is content with, is not enough. */
  lemma TwoShort(d: Disk, ino: nat)
    requires forall s :: SlotAt(d, ino, s) == 0
    ensures |Missing(d, PathSet(256, ino, 12))| == 2
  {
    var index := IndexOf(256, 12);
    assert ModeOf(256, 12) == 1 && index[0] == 12;
    var all := ChainSet(ino, index, 0, 1);
    forall p | p in all
      ensures At(d, p) == 0
    {
      EmptyFileAt(d, p);
    }
    assert Missing(d, all) == all;
    InChainSet(ino, index, 0, 1);
    ChainShape(ino, index, 0);
    ChainShape(ino, index, 1);
    forall p | p in all
      ensures p in {Chain(ino, index, 0), Chain(ino, index, 1)}
    {
      assert p == Chain(ino, index, Depth(p));
    }
    assert all == {Chain(ino, index, 0), Chain(ino, index, 1)};
    assert Chain(ino, index, 0) != Chain(ino, index, 1);
  }

  /** A volume of 7 blocks of which one, block 6, is a data block. */
  function TinyGeometry(): Geometry {
    Geometry(1024, 7, 0, 8192, 8, [5])
  }

  lemma TinyVolume(geo: Geometry)
    requires geo == Geometry(1024, 7, 0, 8192, 8, [5])
    ensures geo.Ok() && geo.Groups() == 1 && Sum(BlockCounts(EmptyGroups(geo))) == 1
  {
    hide *;
    OneGroupIs(geo);
    OneGroup(geo);
  }

  lemma TinyFacts()
    ensures TinyGeometry().Ok() && TinyGeometry().Groups() == 1 && TinyGeometry().blockSize == 1024
    ensures Sum(BlockCounts(EmptyGroups(TinyGeometry()))) == 1
  {
    TinyVolume(TinyGeometry());
  }

  /** On it an empty file is given a block at byte 12288, behind its direct blocks. The guard is content, the index
      block is written over the data block, and the volume is no tree any more. */
  method OneBlockLeft() returns (v: Volume, h: FileHandle)
    ensures fresh(v) && fresh(h) && v.geo == TinyGeometry() && v.geo.Ok()
    ensures Shared(v.LinksPerBlock(), DiskOf(v, h), v.live)
  {
    hide *;
    TinyFacts();
    v := EmptyVolume(TinyGeometry());
    h := new FileHandle();
    SomeInodeFree(v.geo);
    ConsistentIs(v);
    SoundFacts(v);
    var made := AllocateNewInode(v, h, 0, EXT2_S_IFREG);
    ConsistentIs(v);
    SoundFacts(v);
    TwoTo32();
    Advance(v, h, 12288);
    OpenFacts(v, h);
    FreshSlots(v.D(), h.ino, EXT2_S_IFREG);
    TwoShort(v.D(), h.ino);
    LinksAre(v);
    FarHole(v, h);
    var first, count, grown := GraftPath(v, h);
  }

  lemma FreshSlots(d: Disk, ino: nat, mode: bv16)
    requires ino < |d.inodes| && d.inodes[ino] == FreshInode(mode)
    ensures forall s :: SlotAt(d, ino, s) == 0
  {
    FreshInodeEmpty(mode);
    hide FreshInode;
  }

  lemma FarHole(v: Volume, h: FileHandle)
    requires v.geo.Ok() && v.geo.blockSize == 1024 && h.it.offset == 12288
    requires forall s :: SlotAt(v.D(), h.ino, s) == 0
    ensures AtHole(v, h) && MissingHere(v, h) == Missing(v.D(), PathSet(256, h.ino, 12))
  {
    assert ModeOf(256, 12) == 1 && 12 < Limit(256, 3);
    PathOk(256, h.ino, 12, 1);
    assert InoOf(FilePos(256, h.ino, 12)) == h.ino;
    hide PathSet, Missing, FilePos;
    EmptyFileAt(v.D(), FilePos(256, h.ino, 12));
  }

  // ---- directories ----

  /** A directory with "." and ".." alone, as create_directory_ext2 leaves it. */
  ghost function NewDirectoryBytes(bs: nat, self: nat, parent: nat): (c: seq<byte>)
    requires BlockSizeOk(bs) && 0 < self < TWO32 && 0 < parent < TWO32
    ensures DirOk(c, bs) && Dots(c, self, parent) && |c| == bs
    ensures DirMap(c, bs) == DotEntries(self, parent)
  {
    DotsMade(bs, self, 2, parent, 2);
    DotsBytes(bs, self, parent);
    Inserted(Inserted([], bs, self, 2, DOT), bs, parent, 2, DOTDOT)
  }

  lemma DotsBytes(bs: nat, self: nat, parent: nat)
    requires BlockSizeOk(bs) && 0 < self < TWO32 && 0 < parent < TWO32
    ensures DirOk([], bs) && DirOk(Inserted([], bs, self, 2, DOT), bs)
    ensures var c := Inserted(Inserted([], bs, self, 2, DOT), bs, parent, 2, DOTDOT);
      DirOk(c, bs) && |c| == bs && DirMap(c, bs) == DotEntries(self, parent)
  {
    hide EntryAt, NameAt, Encode, DirOk, DirMap, PutRecord, NeedLen;
    EmptyDir(bs);
    DotNames();
    NeedOfTwo();
    InsertedOk([], bs, self, 2, DOT);
    var c := Inserted([], bs, self, 2, DOT);
    InsertedOk(c, bs, parent, 2, DOTDOT);
    DotEntriesIs(self, parent, DirMap([], bs));
    var e := DirEntry(self, bs, 1, 2);
    FirstRoomEnd([], bs, 12);
    assert c == PutRecord([], 0, e, DOT);
    PutRecordReads([], 0, e, DOT);
    DirOkFacts(c, bs);
    assert FirstRoom(c, bs, 0, 12) == 0;
    var c1 := Overlay(c, 0, Encode(e.(recLen := 12)));
    PutHeaderReads(c, 0, e.(recLen := 12));
    PutRecordReads(c1, 12, DirEntry(parent, bs - 12, 2, 2), DOTDOT);
  }

  /** unlink_file_ext2 can find the first record, that of ".", and what it leaves is no directory. */
  lemma FirstRecordFound(bs: nat, self: nat, parent: nat)
    requires BlockSizeOk(bs) && 0 < self < TWO32 && 0 < parent < TWO32
    ensures var c := NewDirectoryBytes(bs, self, parent);
      FoundAt(c, bs, DOT, EntryAt(c, 0), 0, 0) && !DirOk(Without(c, bs, 0, 0), bs)
  {
    hide *;
    var c := NewDirectoryBytes(bs, self, parent);
    BlockSizePositive(bs);
    SizesOfBlocks(bs);
    DirOkFacts(c, bs);
    WalkStep(c, bs, 0);
    FirstFound(c, bs, self, parent);
    DotNames();
    TiledUnlessFirst(c, bs, DOT, EntryAt(c, 0), 0, 0);
  }

  lemma SizesOfBlocks(bs: nat)
    requires BlockSizeOk(bs)
    ensures bs == 1024 || bs == 2048
  {
  }

  lemma FirstFound(c: seq<byte>, bs: nat, self: nat, parent: nat)
    requires bs > 0 && RecordIn(c, bs, 0) && Dots(c, self, parent)
    ensures FoundAt(c, bs, DOT, EntryAt(c, 0), 0, 0)
  {
  }

  /** ".", entered once more in a new directory, leaves no directory. */
  lemma NameTwice(bs: nat, self: nat, parent: nat, ino: nat, fileType: nat)
    requires BlockSizeOk(bs) && 0 < self < TWO32 && 0 < parent < TWO32 && 0 < ino < TWO32 && fileType < 0x100
    ensures bs > 0 && !DirOk(Inserted(NewDirectoryBytes(bs, self, parent), bs, ino, fileType, DOT), bs)
  {
    hide *;
    SizesOfBlocks(bs);
    DotNames();
    DotEntriesIs(self, parent, map[]);
    InsertedIff(NewDirectoryBytes(bs, self, parent), bs, ino, fileType, DOT);
  }

  // ---- a directory that has grown ----

  /** create_dir_entry_ext2 with a new name. */
  ghost predicate Entered(bs: nat, c: seq<byte>, c': seq<byte>, ino: nat, name: Name) {
    && bs > 0 && DirOk(c, bs) && NameOk(name) && name !in DirMap(c, bs)
    && c' == Inserted(c, bs, ino, 1, name)
  }

  /** unlink_file_ext2 of a name that is there. */
  ghost predicate Taken(bs: nat, c: seq<byte>, c': seq<byte>, name: Name) {
    bs > 0 && DirOk(c, bs) && exists e, o, p :: FoundAt(c, bs, name, e, o, p) && c' == Without(c, bs, p, o)
  }

  /** The names one, two, ... of a long series. */
  function Nth(k: nat): (name: Name)
    requires k < 200
    ensures NameOk(name) && name != DOT && name != DOTDOT
  {
    [120, k + 1]
  }

  ghost function Nths(k: nat): (names: set<Name>)
    requires k <= 200
    ensures |names| == k && forall i: nat :: i < 200 ==> (Nth(i) in names <==> i < k)
    ensures DOT !in names && DOTDOT !in names
  {
    if k == 0 then {}
    else
      NthsDiffer(k - 1);
      Nths(k - 1) + {Nth(k - 1)}
  }

  lemma NthsDiffer(k: nat)
    requires k < 200
    ensures forall i: nat :: i < 200 ==> (Nth(i) == Nth(k) <==> i == k)
  {
    forall i: nat | i < 200
      ensures Nth(i) == Nth(k) <==> i == k
    {
      assert Nth(i)[1] == i + 1 && Nth(k)[1] == k + 1;
    }
  }

  /** A directory with its dots and the first k names. */
  ghost predicate Stage(bs: nat, c: seq<byte>, self: nat, parent: nat, k: nat)
    requires k <= 200
  {
    bs > 0 && DirOk(c, bs) && Dots(c, self, parent) && DirMap(c, bs).Keys == {DOT, DOTDOT} + Nths(k)
  }

  lemma StageIs(bs: nat, c: seq<byte>, self: nat, parent: nat, k: nat)
    requires k <= 200
    ensures Stage(bs, c, self, parent, k) <==>
      bs > 0 && DirOk(c, bs) && Dots(c, self, parent) && DirMap(c, bs).Keys == {DOT, DOTDOT} + Nths(k)
    ensures k > 0 ==> Nths(k) == Nths(k - 1) + {Nth(k - 1)} && Nth(k - 1) !in Nths(k - 1)
    ensures k == 0 ==> Nths(k) == {}
  {
    hide DirOk, Dots, DirMap;
  }

  /** Enters k names. */
  lemma {:induction false} EnterAll(bs: nat, c: seq<byte>, self: nat, parent: nat, ino: nat, k: nat)
    returns (cs: seq<seq<byte>>)
    requires (bs == 1024 || bs == 2048) && k <= 200 && 0 < ino < TWO32 && Stage(bs, c, self, parent, 0)
    ensures |cs| == k + 1 && cs[0] == c && Stage(bs, cs[k], self, parent, k)
    ensures forall i | 0 <= i < k :: Entered(bs, cs[i], cs[i + 1], ino, Nth(i))
    decreases k
  {
    hide *;
    if k == 0 {
      cs := [c];
    } else {
      cs := EnterAll(bs, c, self, parent, ino, k - 1);
      var last := EnterOne(bs, cs[k - 1], self, parent, ino, k);
      cs := cs + [last];
    }
  }

  lemma EnterOne(bs: nat, c: seq<byte>, self: nat, parent: nat, ino: nat, k: nat) returns (c': seq<byte>)
    requires (bs == 1024 || bs == 2048) && 0 < k <= 200 && 0 < ino < TWO32 && Stage(bs, c, self, parent, k - 1)
    ensures Stage(bs, c', self, parent, k) && Entered(bs, c, c', ino, Nth(k - 1))
  {
    hide DirOk, Dots, DirMap, Inserted, NameOk, Nth, Nths;
    StageIs(bs, c, self, parent, k - 1);
    StageIs(bs, c, self, parent, k);
    InsertedOk(c, bs, ino, 1, Nth(k - 1));
    c' := Inserted(c, bs, ino, 1, Nth(k - 1));
    StageIs(bs, c', self, parent, k);
  }

  /** Unlinks the k names again, the last one first. */
  lemma {:induction false} TakeAll(bs: nat, c: seq<byte>, self: nat, parent: nat, k: nat) returns (cs: seq<seq<byte>>)
    requires (bs == 1024 || bs == 2048) && k <= 200 && Stage(bs, c, self, parent, k)
    ensures |cs| == k + 1 && cs[0] == c && Stage(bs, cs[k], self, parent, 0) && |cs[k]| == |c|
    ensures forall i | 0 <= i < k :: Taken(bs, cs[i], cs[i + 1], Nth(k - 1 - i))
    decreases k
  {
    hide *;
    if k == 0 {
      cs := [c];
    } else {
      var next := TakeOne(bs, c, self, parent, k);
      var rest := TakeAll(bs, next, self, parent, k - 1);
      cs := [c] + rest;
      forall i | 0 <= i < k
        ensures Taken(bs, cs[i], cs[i + 1], Nth(k - 1 - i))
      {
        if i > 0 {
          assert cs[i] == rest[i - 1] && cs[i + 1] == rest[i];
          assert Taken(bs, rest[i - 1], rest[i - 1 + 1], Nth(k - 1 - 1 - (i - 1)));
        }
      }
    }
  }

  lemma TakeOne(bs: nat, c: seq<byte>, self: nat, parent: nat, k: nat) returns (c': seq<byte>)
    requires (bs == 1024 || bs == 2048) && 0 < k <= 200 && Stage(bs, c, self, parent, k)
    ensures Stage(bs, c', self, parent, k - 1) && Taken(bs, c, c', Nth(k - 1)) && |c'| == |c|
  {
    hide DirOk, Dots, DirMap, NameMap, Tiled, Without, NameOk, FoundAt, Nth, Nths, FirstKept;
    StageIs(bs, c, self, parent, k);
    DirOkFacts(c, bs);
    TrailStart(c, bs);
    MapOfAll(c, bs);
    var e, o, p := FindName(c, bs, Nth(k - 1), 0, 0, 0);
    NameOkNotEmpty(Nth(k - 1));
    WithoutIs(c, bs, Nth(k - 1), e, o, p);
    NotFirst(c, self, parent, Nth(k - 1));
    c' := Without(c, bs, p, o);
    StageIs(bs, c', self, parent, k - 1);
    assert DirMap(c, bs).Keys - {Nth(k - 1)} == {DOT, DOTDOT} + Nths(k - 1);
  }

  lemma NameOkNotEmpty(name: Name)
    requires NameOk(name)
    ensures name != []
  {
  }

  lemma NotFirst(c: seq<byte>, self: nat, parent: nat, name: Name)
    requires Dots(c, self, parent) && name != DOT
    ensures !FirstName(c, name)
  {
    hide EntryAt, NameAt;
  }

  lemma MapOfAll(c: seq<byte>, bs: nat)
    requires bs > 0 && DirOk(c, bs)
    ensures Tiled(c, bs, 0, 0) && Tiled(c, bs, 0, |c|) && DirMap(c, bs) == NameMap(c, bs, 0, |c|)
  {
  }

  /** The walk of a lookup, from record a on: a name that is there is found. */
  lemma {:induction false} FindName(c: seq<byte>, bs: nat, name: Name, a: nat, offset: nat, before: nat)
    returns (e: Entry, o: nat, p: nat)
    requires 0 < bs <= 2048 && a <= |c| && Tiled(c, bs, 0, a) && Tiled(c, bs, a, |c|) && Trail(c, bs, a, offset, before)
    requires name in NameMap(c, bs, a, |c|)
    ensures FoundAt(c, bs, name, e, o, p)
    decreases |c| - a
  {
    hide *;
    TiledNothing(c, bs, a);
    WalkStep(c, bs, a);
    TrailStep(c, bs, a, offset, before);
    RecordIsOk(c, bs, a);
    TiledBack(c, bs, a, |c|);
    if name in NamesAt(c, a) {
      LiveName(c, a, name);
      e, o, p := EntryAt(c, a), a, offset;
      FoundIntro(c, bs, name, e, a, offset);
    } else {
      e, o, p := FindName(c, bs, name, a + EntryAt(c, a).recLen, a, offset);
    }
  }

  /** A record takes 12 bytes or more, so there are no more names than that. */
  lemma {:induction false} NamesFit(c: seq<byte>, bs: nat, a: nat, b: nat)
    requires bs > 0 && a <= b && Tiled(c, bs, a, b)
    ensures 12 * |NameMap(c, bs, a, b)| <= b - a
    decreases b - a
  {
    hide *;
    TiledNothing(c, bs, a);
    if a < b {
      TiledNext(c, bs, a, b);
      var next := a + EntryAt(c, a).recLen;
      TiledBack(c, bs, a, b);
      NamesFit(c, bs, next, b);
      OneRecord(c, bs, a);
      MapSize(NameMap(c, bs, next, b), NamesAt(c, a));
    }
  }

  lemma OneRecord(c: seq<byte>, bs: nat, a: nat)
    requires bs > 0 && RecOk(c, bs, a)
    ensures 12 * |NamesAt(c, a)| <= EntryAt(c, a).recLen
  {
    hide EntryAt;
  }

  lemma MapSize(m: map<Name, nat>, n: map<Name, nat>)
    ensures |m + n| <= |m| + |n|
  {
    assert (m + n).Keys == m.Keys + (n.Keys - m.Keys);
    SubsetOf(n.Keys - m.Keys, n.Keys);
    assert |m.Keys| == |m| && |n.Keys| == |n| && |(m + n).Keys| == |m + n|;
  }

  lemma SubsetOf(a: set<Name>, b: set<Name>)
    requires a <= b
    ensures |a| <= |b|
  {
    assert b == a + (b - a);
  }

  /** Two hundred names do not fit into one block. */
  lemma StageGrown(bs: nat, c: seq<byte>, self: nat, parent: nat)
    requires (bs == 1024 || bs == 2048) && Stage(bs, c, self, parent, 200)
    ensures |c| > bs
  {
    hide DirOk, Dots, DirMap, NameMap, Tiled, Nth, Nths;
    StageIs(bs, c, self, parent, 200);
    MapOfAll(c, bs);
    NamesFit(c, bs, 0, |c|);
    DotNames();
    assert |{DOT, DOTDOT} + Nths(200)| == 202;
    assert |DirMap(c, bs).Keys| == |DirMap(c, bs)|;
  }

  lemma NotLast(c: seq<byte>, bs: nat)
    requires bs == 1024 || bs == 2048
    requires |c| > bs
    ensures !LastAt(c, bs, 12)
  {
    hide EntryAt, Tiled;
  }

  /** A new directory is given two hundred names, which are then unlinked: `up` and `down` are its contents step by
      step. In the end it has its dots alone, as at first, but its last record does not start at byte 12, so
      delete_directory_ext2 leaves it. */
  lemma EmptyButNotRemoved(bs: nat, self: nat, parent: nat, ino: nat)
    returns (up: seq<seq<byte>>, down: seq<seq<byte>>)
    requires BlockSizeOk(bs) && 0 < self < TWO32 && 0 < parent < TWO32 && 0 < ino < TWO32
    ensures |up| == |down| == 201 && up[0] == NewDirectoryBytes(bs, self, parent) && down[0] == up[200]
    ensures forall i | 0 <= i < 200 :: Entered(bs, up[i], up[i + 1], ino, Nth(i))
    ensures forall i | 0 <= i < 200 :: Taken(bs, down[i], down[i + 1], Nth(199 - i))
    ensures var empty := down[200];
      && bs > 0 && DirOk(empty, bs) && Dots(empty, self, parent) && DirMap(empty, bs).Keys == {DOT, DOTDOT}
      && !LastAt(empty, bs, 12)
  {
    hide *;
    SizesOfBlocks(bs);
    var c := NewDirectoryBytes(bs, self, parent);
    DotEntriesIs(self, parent, map[]);
    StageIs(bs, c, self, parent, 0);
    up := EnterAll(bs, c, self, parent, ino, 200);
    StageGrown(bs, up[200], self, parent);
    down := TakeAll(bs, up[200], self, parent, 200);
    StageIs(bs, down[200], self, parent, 0);
    NotLast(down[200], bs);
  }

  // ---- names that are too long ----

  lemma ThreeInodes(geo: Geometry, live: set<nat>)
    requires geo.Ok() && geo.inodesPerGroup >= 3 && |live| <= 2
    ensures AnyFree(InodeSpace(geo), live)
  {
    GroupsBounds(geo);
    InodeCell(geo, 0, 0);
    InodeCell(geo, 0, 1);
    InodeCell(geo, 0, 2);
    var one, two, three := Number(InodeSpace(geo), 0, 0), Number(InodeSpace(geo), 0, 1), Number(InodeSpace(geo), 0, 2);
    if one in live && two in live && three in live {
      assert {one, two, three} <= live;
      SizeOfThree(one, two, three, live);
    }
    if one !in live {
      assert Free(InodeSpace(geo), live, 0, 0);
    } else if two !in live {
      assert Free(InodeSpace(geo), live, 0, 1);
    } else {
      assert Free(InodeSpace(geo), live, 0, 2);
    }
  }

  lemma SizeOfThree(a: nat, b: nat, c: nat, s: set<nat>)
    requires {a, b, c} <= s && a < b < c
    ensures |s| >= 3
  {
    assert s == {a, b, c} + (s - {a, b, c});
  }

  function LongName(): (name: Name)
    ensures |name| == 256
  {
    seq(256, i => 97)
  }

  lemma OneMore(live: set<nat>, live': set<nat>, ino: nat)
    requires ino !in live && live' == live + {ino}
    ensures |live'| == |live| + 1
  {
  }

  /** create_file_ext2 with a name of 256 bytes: the answer is no, and an inode is gone for good. */
  method LongFile(v: Volume, h: FileHandle, ghost names: Table) returns (ok: bool)
    requires Mounted(v, names) && Open(v, h) && h.ino in names && v.geo.Ok() && AnyFree(InodeSpace(v.geo), v.live)
    modifies v, h
    ensures Mounted(v, names) && Open(v, h) && h.ino == old(h.ino) && !ok && |v.live| == |old(v.live)| + 1
  {
    hide *;
    var hn := new FileHandle();
    ghost var names1;
    ok, names1 := CreateFile(v, h, hn, LongName(), EXT2_S_IFREG, names);
    OneMore(old(v.live), v.live, hn.ino);
  }

  /** The same of create_directory_ext2. */
  method LongDirectory(v: Volume, h: FileHandle, ghost names: Table) returns (ok: bool)
    requires Mounted(v, names) && Open(v, h) && h.ino in names && v.geo.Ok() && AnyFree(InodeSpace(v.geo), v.live)
    requires h.inode.links < 0xFFFF
    modifies v, h
    ensures Mounted(v, names) && Open(v, h) && h.ino == old(h.ino) && !ok && |v.live| == |old(v.live)| + 1
  {
    hide *;
    var hn := new FileHandle();
    ghost var names1;
    ok, names1 := CreateDirectory(v, h, hn, LongName(), 0, names);
    OneMore(old(v.live), v.live, hn.ino);
  }

  /** A mounted volume of 64 blocks and 8 inodes with nothing but a root directory. */
  method SmallRoot() returns (v: Volume, h: FileHandle)
    ensures fresh(v) && fresh(h) && Mounted(v, RootTable(h.ino)) && Open(v, h)
    ensures v.geo == SmallGeometry() && v.live == {h.ino}
  {
    SmallVolume(SmallGeometry());
    hide *;
    v := EmptyVolume(SmallGeometry());
    var ok;
    h, ok := MakeRoot(v);
  }

  function SmallGeometry(): Geometry {
    Geometry(1024, 64, 0, 8192, 8, [5])
  }

  lemma SmallFacts()
    ensures SmallGeometry().Ok() && SmallGeometry().inodesPerGroup == 8
  {
    SmallVolume(SmallGeometry());
  }

  /** On it a file and a directory with names of 256 bytes are asked for: three inodes are marked, one has a name. */
  method LongNames() returns (v: Volume, h: FileHandle, madeFile: bool, madeDirectory: bool)
    ensures Mounted(v, RootTable(h.ino)) && !madeFile && !madeDirectory && |v.live| == 3
  {
    hide *;
    v, h := SmallRoot();
    SmallFacts();
    ghost var names := RootTable(h.ino);
    RootTableIs(h.ino);
    ThreeInodes(v.geo, v.live);
    madeFile := LongFile(v, h, names);
    ThreeInodes(v.geo, v.live);
    RootLinks(v, h, names);
    madeDirectory := LongDirectory(v, h, names);
  }

  lemma RootLinks(v: Volume, h: FileHandle, names: Table)
    requires Mounted(v, names) && Open(v, h) && names == RootTable(h.ino)
    ensures h.inode.links < 0xFFFF
  {
    hide *;
    MountedFacts(v, names);
    OpenFacts(v, h);
    NamesFacts(v.geo.blockSize, v.D(), v.live, names);
    TwoRefs(h.ino);
  }

  lemma TwoRefs(ino: nat)
    ensures |Refs(RootTable(ino), ino)| == 2
  {
    InRefs(RootTable(ino), ino);
    DotNames();
    DotEntriesIs(ino, ino, map[]);
    assert Refs(RootTable(ino), ino) == {(ino, DOT), (ino, DOTDOT)};
  }
}
