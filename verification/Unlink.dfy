/** unlink_file_ext2: a record leaves its directory and the file it names loses a link, or everything with the last
    one. */
module Unlinking {
  import opened Bytes
  import opened Tree
  import opened Contents
  import opened Volumes
  import opened FileHandles
  import opened Teardown
  import opened FileIO
  import opened DirRecords
  import opened RecordBytes
  import opened DirStores
  import opened Directories

  /** Every live file has the content it had. */
  ghost predicate AllRead(bs: nat, d: Disk, d': Disk, live: set<nat>)
    requires BlockSizeOk(bs)
  {
    forall i | i in live :: Content(bs, d', i) == Content(bs, d, i)
  }

  /** One link of file t is gone. With its last link the inode and exactly the blocks of its tree are given back;
      otherwise nothing but the count changes. */
  ghost predicate LinkDropped(bs: nat, s: Snapshot, s': Snapshot, t: nat) {
    && BlockSizeOk(bs) && t < |s.disk.inodes|
    && LinksMoved(s.disk, s'.disk, s'.live, t, -1)
    && if s.disk.inodes[t].links == 1 then
         && s'.live == s.live - {t}
         && s'.owner == s.owner - FileBlocks(s.owner, t)
         && s'.freeBlocks == s.freeBlocks + |FileBlocks(s.owner, t)|
       else
         s'.live == s.live && s'.owner == s.owner && s'.freeBlocks == s.freeBlocks && s'.groups == s.groups
  }

  lemma LinkDroppedIntro(bs: nat, s: Snapshot, s': Snapshot, t: nat)
    requires BlockSizeOk(bs) && t < |s.disk.inodes| && LinksMoved(s.disk, s'.disk, s'.live, t, -1)
    requires s.disk.inodes[t].links == 1 ==>
      && s'.live == s.live - {t} && s'.owner == s.owner - FileBlocks(s.owner, t)
      && s'.freeBlocks == s.freeBlocks + |FileBlocks(s.owner, t)|
    requires s.disk.inodes[t].links != 1 ==>
      s'.live == s.live && s'.owner == s.owner && s'.freeBlocks == s.freeBlocks && s'.groups == s.groups
    ensures LinkDropped(bs, s, s', t)
  {
  }

  lemma RemovedReads(bs: nat, d: Disk, d': Disk, live: set<nat>, t: nat)
    requires BlockSizeOk(bs) && t < |d.inodes| && d'.inodes == d.inodes[t := NO_INODE] && t !in live
    requires SameBytes(bs, d, d', live)
    ensures AllRead(bs, d, d', live) && LinksMoved(d, d', live, t, -1)
  {
    hide ByteAt;
    forall i | i in live
      ensures Content(bs, d', i) == Content(bs, d, i)
    {
      assert SizeOf(d', i) == SizeOf(d, i);
    }
  }

  /** The middle of unlink_file_ext2: `file_del` is read, loses a link, and is removed or written back. */
  method DropLink(v: Volume, t: nat)
    requires v.Consistent() && t in v.live && t < |v.inodes| && v.inodes[t].links > 0
    modifies v`inodes, v`groups, v`blockBits, v`inodeBits, v`used, v`live, v`owner, v`freeBlocks, v`freeInodes
    modifies v`dirCounts
    ensures v.Consistent() && v.dirCounts == old(v.dirCounts)
    ensures LinkDropped(v.geo.blockSize, old(Snap(v)), Snap(v), t)
    ensures BlockSizeOk(v.geo.blockSize) && AllRead(v.geo.blockSize, old(v.D()), v.D(), v.live)
  {
    hide *;
    ConsistentIs(v);
    SnapIs(v);
    VolumeDisk(v);
    SoundFacts(v);
    ghost var s := Snap(v);
    var del := new FileHandle();
    ReadInode(v, del, t);
    OpenFacts(v, del);
    if del.inode.links - 1 == 0 {
      RemoveFile(v, del);
      VolumeDisk(v);
      RemovedReads(v.geo.blockSize, old(v.D()), v.D(), v.live, t);
    } else {
      SetLinks(v, del, del.inode.links - 1);
      ReadsAll(v.geo.blockSize, old(v.D()), v.D(), v.live);
    }
    SnapIs(v);
    LinkDroppedIntro(v.geo.blockSize, s, Snap(v), t);
  }

  lemma ReadsAll(bs: nat, d: Disk, d': Disk, live: set<nat>)
    requires BlockSizeOk(bs) && forall i :: Content(bs, d', i) == Content(bs, d, i)
    ensures AllRead(bs, d, d', live)
  {
  }

  // ---- the directory without the record ----

  /** `name` is the name of the directory's first record. */
  ghost predicate FirstName(c: seq<byte>, name: Name) {
    EntryAt(c, 0).inode != 0 && NameAt(c, 0) == name
  }

  /** Unlinking `name` took c to c'. The first record of a directory is zeroed out, length and all; any other record
      leaves a directory in which its name is gone and every other name leads where it led. RecordGone says which bytes
      have changed, and to what. */
  ghost predicate NameRemoved(bs: nat, c: seq<byte>, c': seq<byte>, name: Name) {
    && bs > 0 && DirOk(c, bs) && |c'| == |c| && RecordGone(bs, c, c', name)
    && if FirstName(c, name) then
         c' == Overlay(c, 0, Zeros(EntryAt(c, 0).recLen))
       else
         && DirOk(c', bs) && DirMap(c', bs) == DirMap(c, bs) - {name} && FirstKept(c, c')
         && (name != DOTDOT ==> forall self, parent | Dots(c, self, parent) :: Dots(c', self, parent))
  }

  /** Names differ, so the first record has the name exactly when the record that was found is the first one. */
  lemma FirstIsFirst(c: seq<byte>, bs: nat, fname: Name, e: DirRecords.Entry, o: nat, before: nat)
    requires 0 < bs <= 2048 && DirOk(c, bs) && FoundAt(c, bs, fname, e, o, before) && fname != []
    ensures FirstName(c, fname) <==> o == 0
  {
    hide Distinct, Tiled, NameMap, RecOk, NamesAt, NeedPositive;
    if o > 0 {
      assert NamesAt(c, o).Keys == {fname} by { Compared(c, bs, o, fname); OneName(c, o); }
      DirOkFacts(c, bs);
      WalkStep(c, bs, 0);
      RecordBefore(c, bs, o);
      OneName(c, 0);
    }
  }

  lemma OneName(c: seq<byte>, o: nat)
    ensures NamesAt(c, o).Keys == if EntryAt(c, o).inode == 0 then {} else {NameAt(c, o)}
  {
  }

  lemma RecordBefore(c: seq<byte>, bs: nat, o: nat)
    requires 0 < bs <= 2048 && DirOk(c, bs) && RecordIn(c, bs, o) && o > 0
    ensures NamesAt(c, 0).Keys !! NamesAt(c, o).Keys
  {
    hide RecOk, NamesAt, EntryAt, NeedPositive;
    DirOkFacts(c, bs);
    TiledNext(c, bs, 0, o);
    var m, end := EntryAt(c, 0).recLen, o + EntryAt(c, o).recLen;
    TiledOne(c, bs, 0);
    TiledOne(c, bs, o);
    hide Tiled, NameMap, Distinct;
    TiledJoin(c, bs, 0, m, o);
    TiledJoin(c, bs, o, end, |c|);
    TiledJoin(c, bs, 0, o, |c|);
  }

  /** The three ways in which unlink_file_ext2 takes record o out of the directory. */
  ghost function Without(c: seq<byte>, bs: nat, p: nat, o: nat): seq<byte>
    requires bs > 0
  {
    if o == 0 then Overlay(c, 0, Zeros(EntryAt(c, 0).recLen))
    else if o % bs == 0 then NullDelete(c, o)
    else MergeDelete(c, p, o)
  }

  lemma WithoutIs(c: seq<byte>, bs: nat, fname: Name, e: DirRecords.Entry, o: nat, p: nat)
    requires bs == 1024 || bs == 2048
    requires DirOk(c, bs) && FoundAt(c, bs, fname, e, o, p) && fname != []
    ensures NameRemoved(bs, c, Without(c, bs, p, o), fname)
  {
    hide *;
    FirstIsFirst(c, bs, fname, e, o, p);
    FoundFacts(c, bs, fname, e, o, p);
    var c' := Without(c, bs, p, o);
    WithoutCases(c, bs, p, o);
    OneName(c, o);
    RecordBounds(c, bs, o);
    if o == 0 {
      GoneFirst(c, bs, fname);
      GoneIs(bs, c, c', fname, 0, 0);
      NameRemovedFirst(bs, c, c', fname);
    } else if o % bs == 0 {
      GoneNull(c, bs, o, fname);
      GoneIs(bs, c, c', fname, 0, o);
      DeleteNull(c, bs, o);
      FirstAfterNull(c, bs, o);
      forall self, parent | Dots(c, self, parent)
        ensures Dots(c', self, parent)
      {
        DotsAfterNull(c, bs, o, self, parent);
      }
      NameRemovedLater(bs, c, c', fname);
    } else {
      GoneMerged(c, bs, p, o, fname);
      GoneIs(bs, c, c', fname, p, o);
      DeleteMerge(c, bs, p, o);
      FirstAfterMerge(c, bs, p, o);
      forall self, parent | fname != DOTDOT && Dots(c, self, parent)
        ensures Dots(c', self, parent)
      {
        SecondIsDotDot(c, self, parent, o);
        DotsAfterMerge(c, bs, p, o, self, parent);
      }
      NameRemovedLater(bs, c, c', fname);
    }
  }

  lemma FoundFacts(c: seq<byte>, bs: nat, fname: Name, e: DirRecords.Entry, o: nat, p: nat)
    requires bs > 0 && FoundAt(c, bs, fname, e, o, p)
    ensures RecordIn(c, bs, o) && e == EntryAt(c, o) && e.inode != 0 && NameAt(c, o) == fname
    ensures o == 0 ==> p == 0
    ensures o > 0 ==> Neighbours(c, bs, p, o) && p < o
  {
  }

  /** What is left is a directory exactly when the victim was not its first record: a zeroed first record has length 0,
      and no walk gets past it. */
  lemma TiledUnlessFirst(c: seq<byte>, bs: nat, fname: Name, e: DirRecords.Entry, o: nat, p: nat)
    requires bs == 1024 || bs == 2048
    requires DirOk(c, bs) && FoundAt(c, bs, fname, e, o, p) && fname != []
    ensures DirOk(Without(c, bs, p, o), bs) <==> o != 0
  {
    hide *;
    FirstIsFirst(c, bs, fname, e, o, p);
    WithoutIs(c, bs, fname, e, o, p);
    FoundFacts(c, bs, fname, e, o, p);
    RecordBounds(c, bs, o);
    HeaderIs();
    WithoutCases(c, bs, p, o);
    if o == 0 {
      ZeroedFirst(c, bs, Without(c, bs, p, o), EntryAt(c, 0).recLen);
    } else {
      StillDirectory(bs, c, Without(c, bs, p, o), fname);
    }
  }

  lemma ZeroedFirst(c: seq<byte>, bs: nat, c': seq<byte>, len: nat)
    requires bs > 0 && 8 <= len <= |c| && c' == Overlay(c, 0, Zeros(len))
    ensures !DirOk(c', bs)
  {
    assert c'[4] == 0 && c'[5] == 0;
    assert EntryAt(c', 0).recLen == 0;
    assert !NeedPositive(c', 0);
  }

  lemma StillDirectory(bs: nat, c: seq<byte>, c': seq<byte>, name: Name)
    requires NameRemoved(bs, c, c', name) && !FirstName(c, name)
    ensures bs > 0 && DirOk(c', bs)
  {
  }

  lemma WithoutCases(c: seq<byte>, bs: nat, p: nat, o: nat)
    requires bs > 0
    ensures o == 0 ==> Without(c, bs, p, o) == Overlay(c, 0, Zeros(EntryAt(c, 0).recLen))
    ensures o != 0 && o % bs == 0 ==> Without(c, bs, p, o) == NullDelete(c, o)
    ensures o % bs != 0 ==> Without(c, bs, p, o) == MergeDelete(c, p, o)
  {
  }

  lemma NameRemovedFirst(bs: nat, c: seq<byte>, c': seq<byte>, name: Name)
    requires bs > 0 && DirOk(c, bs) && FirstName(c, name) && EntryAt(c, 0).recLen <= |c|
    requires c' == Overlay(c, 0, Zeros(EntryAt(c, 0).recLen)) && RecordGone(bs, c, c', name)
    ensures NameRemoved(bs, c, c', name)
  {
    hide RecordGone;
  }

  lemma NameRemovedLater(bs: nat, c: seq<byte>, c': seq<byte>, name: Name)
    requires bs > 0 && DirOk(c, bs) && |c'| == |c| && !FirstName(c, name)
    requires DirOk(c', bs) && DirMap(c', bs) == DirMap(c, bs) - {name} && FirstKept(c, c')
    requires name != DOTDOT ==> forall self, parent | Dots(c, self, parent) :: Dots(c', self, parent)
    requires RecordGone(bs, c, c', name)
    ensures NameRemoved(bs, c, c', name)
  {
    hide RecordGone;
  }

  lemma SecondIsDotDot(c: seq<byte>, self: nat, parent: nat, o: nat)
    requires Dots(c, self, parent)
    ensures NameAt(c, o) != DOTDOT ==> o != 12
  {
  }

  // ---- the operation ----

  /** unlink_file_ext2 as a step of the volume. */
  ghost predicate Unlinked(bs: nat, s: Snapshot, s': Snapshot, dir: nat, name: Name) {
    && BlockSizeOk(bs) && DirOk(Content(bs, s.disk, dir), bs) && name in DirMap(Content(bs, s.disk, dir), bs)
    && LinkDropped(bs, s, s', DirMap(Content(bs, s.disk, dir), bs)[name])
    && NameRemoved(bs, Content(bs, s.disk, dir), Content(bs, s'.disk, dir), name)
    && OthersRead(bs, s.disk, s'.disk, s'.live, dir)
  }

  /** unlink_file_ext2 can take a name out of a directory: the file it leads to exists, its link count has not run out,
      and the directory itself survives. */
  ghost predicate CanUnlink(bs: nat, d: Disk, live: set<nat>, dir: nat, name: Name) {
    && BlockSizeOk(bs) && DirOk(Content(bs, d, dir), bs) && name != []
    && (name in DirMap(Content(bs, d, dir), bs) ==>
          var t := DirMap(Content(bs, d, dir), bs)[name];
          t in live && t < |d.inodes| && d.inodes[t].links > 0 && (t == dir ==> d.inodes[t].links > 1))
  }

  /** `write_dir_entry_ext2(filp_dir, before_offset, &before_entry)`: the record before the victim takes its bytes over
      when they are in one block. */
  method RewriteBefore(v: Volume, h: FileHandle, e: DirRecords.Entry, p: nat, o: nat) returns (crosses: bool)
    requires OpenDir(v, h) && v.geo.blockSize > 0 && Neighbours(DirBytes(v, h), v.geo.blockSize, p, o)
      && e == EntryAt(DirBytes(v, h), o)
    modifies v`blocks, v`inodes, v`groups, v`blockBits, v`freeBlocks, v`used, v`owner, h`inode, h`it
    ensures v.Consistent() && Open(v, h) && BlockSizeOk(v.geo.blockSize)
    ensures crosses <==> o % v.geo.blockSize == 0
    ensures var c, b := old(DirBytes(v, h)), EntryAt(old(DirBytes(v, h)), p);
      Content(v.geo.blockSize, v.D(), h.ino) == if crosses then c
        else Overlay(c, p, Encode(b.(recLen := b.recLen + e.recLen)))
    ensures Changed(v.geo.blockSize, old(v.D()), old(v.owner), v.D(), v.owner, v.live, h.ino)
    ensures v.freeBlocks == old(v.freeBlocks) && v.groups == old(v.groups)
    ensures v.owner == old(v.owner) && v.blockBits == old(v.blockBits)
  {
    hide *;
    OpenDirFacts(v, h);
    BytesIs(v, h);
    HeaderIs();
    ghost var c, bs := DirBytes(v, h), v.geo.blockSize;
    NeighbourOks(c, bs, p, o);
    NeighbourLengths(c, bs, p, o);
    RecordBounds(c, bs, p);
    DirSolid(bs, v.D(), h.ino);
    SolidLess(bs, v.D(), h.ino, |c|, p + HEADER);
    var header := ReadFile(v, h, 8, p);
    ReadHeader(c, p, header);
    var before := EntryAt(header, 0);
    BlockSizePositive(v.geo.blockSize);
    var newLen := Sum16(before.recLen, e.recLen);
    crosses := p % v.geo.blockSize + newLen > v.geo.blockSize;
    var newLen1 := if crosses then v.geo.blockSize - p % v.geo.blockSize else newLen;
    assert v.Consistent() by { ConsistentIs(v); }
    PutHeader(v, h, before.(recLen := newLen1), p);
    HeaderRewrite(c, p);
  }

  /** The sum of two 16-bit lengths in 16 bits. */
  function Sum16(a: nat, b: nat): nat {
    (a + b) % 0x1_0000
  }

  lemma NeighbourLengths(c: seq<byte>, bs: nat, p: nat, o: nat)
    requires bs == 1024 || bs == 2048
    requires Neighbours(c, bs, p, o)
    ensures var b, e := EntryAt(c, p), EntryAt(c, o);
      && Sum16(b.recLen, e.recLen) == b.recLen + e.recLen
      && (p % bs + (b.recLen + e.recLen) > bs <==> o % bs == 0)
      && (o % bs == 0 ==> bs - p % bs == b.recLen && b.(recLen := b.recLen) == b)
  {
    hide EntryAt, Tiled, NameAt, NeedLen;
    RecordBounds(c, bs, p);
    RecordBounds(c, bs, o);
    CrossesBlock(c, bs, p, o);
  }

  /** The last step of unlink_file_ext2: the victim's bytes become a null record, or zeros. */
  method ClearRecord(v: Volume, h: FileHandle, recLen: nat, o: nat, crosses: bool)
    requires v.Consistent() && Open(v, h) && BlockSizeOk(v.geo.blockSize)
    requires Solid(v.geo.blockSize, v.D(), h.ino, o + recLen) && o % v.geo.blockSize + recLen <= v.geo.blockSize
    requires HEADER <= recLen && o + recLen < TWO32
    modifies v`blocks, v`inodes, v`groups, v`blockBits, v`freeBlocks, v`used, v`owner, h`inode, h`it
    ensures v.Consistent() && Open(v, h) && BlockSizeOk(v.geo.blockSize)
    ensures Content(v.geo.blockSize, v.D(), h.ino)
         == if crosses then PutRecord(Content(v.geo.blockSize, old(v.D()), h.ino), o, DirEntry(0, recLen, 0, 0), [])
            else Overlay(Content(v.geo.blockSize, old(v.D()), h.ino), o, Zeros(recLen))
    ensures Changed(v.geo.blockSize, old(v.D()), old(v.owner), v.D(), v.owner, v.live, h.ino)
    ensures v.freeBlocks == old(v.freeBlocks) && v.groups == old(v.groups)
    ensures v.owner == old(v.owner) && v.blockBits == old(v.blockBits)
  {
    hide *;
    ghost var bs, needs := v.geo.blockSize, WriteNeeds(v.geo.blockSize, v.D(), h.ino, o, recLen);
    RoomInside(bs, v.D(), h.ino, o, recLen, v.freeBlocks);
    NoneMissing(needs);
    if crosses {
      NullFits(bs, o, recLen);
      PutDirRecord(v, h, DirEntry(0, recLen, 0, 0), [], o);
    } else {
      var n := WriteFile(v, h, Zeros(recLen), o);
      ChangedIs(bs, old(v.D()), old(v.owner), v.D(), v.owner, v.live, h.ino);
    }
  }

  lemma NullFits(bs: nat, o: nat, recLen: nat)
    requires BlockSizeOk(bs) && o % bs + recLen <= bs && HEADER <= recLen
    ensures EntryFits(DirEntry(0, recLen, 0, 0))
  {
  }

  /** The three writes of unlink_file_ext2 together. */
  lemma UnlinkedIntro(bs: nat, s: Snapshot, s1: Snapshot, s2: Snapshot, s3: Snapshot, dir: nat, t: nat, name: Name)
    requires BlockSizeOk(bs) && Changed(bs, s.disk, s.owner, s1.disk, s1.owner, s.live, dir)
    requires s1 == s.(disk := s1.disk) && s3 == s2.(disk := s3.disk) && t in s.live && t < |s.disk.inodes|
    requires LinkDropped(bs, s1, s2, t) && AllRead(bs, s1.disk, s2.disk, s2.live) && dir in s2.live
    requires Changed(bs, s2.disk, s2.owner, s3.disk, s3.owner, s2.live, dir)
    requires DirOk(Content(bs, s.disk, dir), bs) && name in DirMap(Content(bs, s.disk, dir), bs)
    requires DirMap(Content(bs, s.disk, dir), bs)[name] == t
    requires NameRemoved(bs, Content(bs, s.disk, dir), Content(bs, s3.disk, dir), name)
    ensures Unlinked(bs, s, s3, dir, name)
  {
    hide DirOk, DirMap, NameRemoved, Untouched, OwnersBut, FileBlocks;
    ChangedReads(bs, s.disk, s.owner, s1.disk, s1.owner, s.live, dir);
    ChangedReads(bs, s2.disk, s2.owner, s3.disk, s3.owner, s2.live, dir);
    hide Changed, OnlyContent;
    assert s2.live <= s.live;
    assert LinkDropped(bs, s, s3, t);
  }

  /** The blocks of a directory stay its own when another file is removed. */
  lemma SolidAfterDrop(bs: nat, s: Snapshot, s': Snapshot, t: nat, dir: nat, len: nat)
    requires BlockSizeOk(bs) && LinkDropped(bs, s, s', t) && Solid(bs, s.disk, dir, len)
    requires dir in s.live && dir in s'.live
    requires TreeInv(bs / 4, s.disk, s.live, s.owner) && TreeInv(bs / 4, s'.disk, s'.live, s'.owner)
    ensures Solid(bs, s'.disk, dir, len)
  {
    hide TreeInv, Solid;
    SolidKept(bs, s.disk, s.live, s.owner, s'.disk, s'.live, s'.owner, dir, len);
  }

  lemma WithoutSteps(c: seq<byte>, bs: nat, p: nat, o: nat)
    requires bs > 0
    ensures o == 0 ==> Without(c, bs, p, o) == Overlay(c, o, Zeros(EntryAt(c, o).recLen))
    ensures o != 0 && o % bs == 0
      ==> Without(c, bs, p, o) == PutRecord(c, o, DirEntry(0, EntryAt(c, o).recLen, 0, 0), [])
    ensures o % bs != 0 ==> var b := EntryAt(c, p);
      Without(c, bs, p, o)
        == Overlay(Overlay(c, p, Encode(b.(recLen := b.recLen + EntryAt(c, o).recLen))), o, Zeros(EntryAt(c, o).recLen))
  {
  }

  lemma CanUnlinkFacts(bs: nat, d: Disk, live: set<nat>, dir: nat, name: Name)
    requires CanUnlink(bs, d, live, dir, name)
    ensures BlockSizeOk(bs) && DirOk(Content(bs, d, dir), bs) && name != []
    ensures name in DirMap(Content(bs, d, dir), bs) ==>
          var t := DirMap(Content(bs, d, dir), bs)[name];
          t in live && t < |d.inodes| && d.inodes[t].links > 0 && (t == dir ==> d.inodes[t].links > 1)
  {
  }

  lemma LinkDroppedLive(bs: nat, s: Snapshot, s': Snapshot, t: nat, dir: nat)
    requires LinkDropped(bs, s, s', t) && dir in s.live && (t == dir ==> s.disk.inodes[t].links != 1)
    ensures dir in s'.live
  {
  }

  /** unlink_file_ext2. The handle is re-read on the way, so its copy of the group descriptor is up to date. */
  method Unlink(v: Volume, h: FileHandle, fname: Name) returns (ok: bool)
    requires OpenDir(v, h) && CanUnlink(v.geo.blockSize, v.D(), v.live, h.ino, fname)
    modifies v, h
    ensures v.Consistent() && Open(v, h) && h.ino == old(h.ino) && BlockSizeOk(v.geo.blockSize)
    ensures DirOk(Content(v.geo.blockSize, old(v.D()), h.ino), v.geo.blockSize)
    ensures ok <==> fname in DirMap(Content(v.geo.blockSize, old(v.D()), h.ino), v.geo.blockSize)
    ensures v.dirCounts == old(v.dirCounts)
    ensures !ok ==> Snap(v) == old(Snap(v))
    ensures ok ==> Unlinked(v.geo.blockSize, old(Snap(v)), Snap(v), h.ino, fname)
    ensures ok ==> h.pbgdIndex < |v.groups| && h.pbgd == v.groups[h.pbgdIndex]
  {
    hide *;
    OpenDirFacts(v, h);
    BytesIs(v, h);
    SnapIs(v);
    ghost var s, bs, c := Snap(v), v.geo.blockSize, DirBytes(v, h);
    CanUnlinkFacts(bs, v.D(), v.live, h.ino, fname);
    var e, o, p;
    ok, e, o, p := LookupName(v, h, fname);
    OpenDirFacts(v, h);
    BytesIs(v, h);
    if !ok {
      SnapIs(v);
      return;
    }
    UnlinkRecord(v, h, fname, e, o, p, s);
  }

  /** unlink_file_ext2 after the name has been found. */
  method UnlinkRecord(v: Volume, h: FileHandle, ghost fname: Name, e: DirRecords.Entry, o: nat, p: nat,
                      ghost s: Snapshot)
    requires OpenDir(v, h) && CanUnlink(v.geo.blockSize, v.D(), v.live, h.ino, fname) && s == Snap(v)
    requires v.geo.blockSize > 0 && FoundAt(DirBytes(v, h), v.geo.blockSize, fname, e, o, p)
    modifies v, h
    ensures v.Consistent() && Open(v, h) && h.ino == old(h.ino) && BlockSizeOk(v.geo.blockSize)
    ensures Unlinked(v.geo.blockSize, s, Snap(v), h.ino, fname) && v.dirCounts == old(v.dirCounts)
    ensures h.pbgdIndex < |v.groups| && h.pbgd == v.groups[h.pbgdIndex]
  {
    hide *;
    OpenDirFacts(v, h);
    BytesIs(v, h);
    SnapIs(v);
    SoundFacts(v);
    ghost var bs, c, dir := v.geo.blockSize, DirBytes(v, h), h.ino;
    var t := e.inode;
    CanUnlinkFacts(bs, v.D(), v.live, dir, fname);
    FoundFacts(c, bs, fname, e, o, p);
    FoundName(c, bs, fname, e, o, p);
    RecordBounds(c, bs, o);
    HeaderIs();
    DirSolid(bs, v.D(), dir);
    WithoutIs(c, bs, fname, e, o, p);
    WithoutSteps(c, bs, p, o);
    VolumeDisk(v);
    var isFirst := o == p;
    var crosses := false;
    if !isFirst {
      crosses := RewriteBefore(v, h, e, p, o);
    } else {
      ChangedNot(bs, v.D(), v.owner, v.live, dir);
    }
    ConsistentIs(v);
    SoundFacts(v);
    SnapIs(v);
    ghost var s1, c1 := Snap(v), Content(bs, v.D(), dir);
    SolidKept(bs, s.disk, s.live, s.owner, s1.disk, s1.live, s1.owner, dir, |c|);
    SolidLess(bs, s1.disk, dir, |c|, o + e.recLen);
    TargetStays(bs, s, s1, dir, t);
    ghost var s2 := DropAndClear(v, h, t, e.recLen, o, crosses);
    SnapIs(v);
    UnlinkedIntro(bs, s, s1, s2, Snap(v), dir, t, fname);
  }

  /** The second half of unlink_file_ext2: the file loses the link, the directory is read again, the record is
      cleared. */
  method DropAndClear(v: Volume, h: FileHandle, t: nat, recLen: nat, o: nat, crosses: bool) returns (ghost s2: Snapshot)
    requires v.Consistent() && Open(v, h) && BlockSizeOk(v.geo.blockSize)
    requires t in v.live && t < |v.inodes| && v.inodes[t].links > 0 && (t == h.ino ==> v.inodes[t].links > 1)
    requires Solid(v.geo.blockSize, v.D(), h.ino, o + recLen) && o % v.geo.blockSize + recLen <= v.geo.blockSize
    requires HEADER <= recLen && o + recLen < TWO32
    modifies v, h
    ensures v.Consistent() && Open(v, h) && h.ino == old(h.ino) && BlockSizeOk(v.geo.blockSize)
    ensures LinkDropped(v.geo.blockSize, old(Snap(v)), s2, t) && h.ino in s2.live && v.dirCounts == old(v.dirCounts)
    ensures AllRead(v.geo.blockSize, old(v.D()), s2.disk, s2.live)
    ensures Snap(v) == s2.(disk := v.D()) && Changed(v.geo.blockSize, s2.disk, s2.owner, v.D(), v.owner, v.live, h.ino)
    ensures Content(v.geo.blockSize, v.D(), h.ino)
         == if crosses then PutRecord(Content(v.geo.blockSize, old(v.D()), h.ino), o, DirEntry(0, recLen, 0, 0), [])
            else Overlay(Content(v.geo.blockSize, old(v.D()), h.ino), o, Zeros(recLen))
    ensures h.pbgdIndex < |v.groups| && h.pbgd == v.groups[h.pbgdIndex]
  {
    hide *;
    ConsistentIs(v);
    SoundFacts(v);
    OpenFacts(v, h);
    SnapIs(v);
    VolumeDisk(v);
    ghost var s1, bs, dir := Snap(v), v.geo.blockSize, h.ino;
    DropLink(v, t);
    ConsistentIs(v);
    SoundFacts(v);
    GroupsLength(v);
    SnapIs(v);
    s2 := Snap(v);
    LinkDroppedLive(bs, s1, s2, t, dir);
    SolidAfterDrop(bs, s1, s2, t, dir, o + recLen);
    AllReadOne(bs, s1.disk, s2.disk, s2.live, dir);
    ReadInode(v, h, h.ino);
    OpenFacts(v, h);
    ClearRecord(v, h, recLen, o, crosses);
    SnapIs(v);
  }

  lemma FoundName(c: seq<byte>, bs: nat, fname: Name, e: DirRecords.Entry, o: nat, p: nat)
    requires bs > 0 && DirOk(c, bs) && FoundAt(c, bs, fname, e, o, p)
    ensures fname in DirMap(c, bs) && DirMap(c, bs)[fname] == e.inode
  {
    hide DirOk, DirMap, RecordIn, EntryAt, NameAt;
    NamesInDir(c, bs, o);
  }

  lemma AllReadOne(bs: nat, d: Disk, d': Disk, live: set<nat>, i: nat)
    requires BlockSizeOk(bs) && AllRead(bs, d, d', live) && i in live
    ensures Content(bs, d', i) == Content(bs, d, i)
  {
  }

  lemma TargetStays(bs: nat, s: Snapshot, s1: Snapshot, dir: nat, t: nat)
    requires BlockSizeOk(bs) && Changed(bs, s.disk, s.owner, s1.disk, s1.owner, s.live, dir)
    requires t in s.live && t < |s.disk.inodes|
    ensures t < |s1.disk.inodes| && s1.disk.inodes[t].links == s.disk.inodes[t].links
  {
    ChangedReads(bs, s.disk, s.owner, s1.disk, s1.owner, s.live, dir);
  }
}
