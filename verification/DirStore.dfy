/** Storing records in a directory's blocks: a tiled directory has no holes, so rewriting a record allocates nothing. */
module DirStores {
  import opened Bytes
  import opened Tree
  import opened Contents
  import opened Volumes
  import opened FileHandles
  import opened Grafting
  import opened FileIO
  import opened DirRecords

  // ---- a directory has no holes ----

  /** Tiles never cross a block border, so every block of a tiled directory starts with a record. */
  lemma {:induction false} BlockStart(c: seq<byte>, bs: nat, a: nat, b: nat, k: nat)
    requires BlockSizeOk(bs) && Tiled(c, bs, a, b) && a <= k < b && k % bs == 0
    ensures NeedPositive(c, k)
    decreases b - a
  {
    hide EntryAt, NameAt, NeedLen;
    if a < k {
      TiledNext(c, bs, a, b);
      NotPassed(bs, a, EntryAt(c, a).recLen, k);
      BlockStart(c, bs, a + EntryAt(c, a).recLen, b, k);
    }
  }

  lemma NotPassed(bs: nat, a: nat, len: nat, k: nat)
    requires BlockSizeOk(bs) && a < k && k % bs == 0 && a % bs + len <= bs
    ensures a + len <= k
  {
  }

  /** The first `len` bytes of file ino have no hole. */
  ghost predicate Solid(bs: nat, d: Disk, ino: nat, len: nat)
    requires BlockSizeOk(bs)
  {
    forall n: nat | n * bs < len :: BlockOf(bs, d, ino, n) != 0
  }

  lemma RecordByte(c: seq<byte>, k: nat)
    requires NeedPositive(c, k)
    ensures k + 6 <= |c| && (c[k + 4] != 0 || c[k + 5] != 0)
  {
  }

  lemma ByteNeedsBlock(bs: nat, d: Disk, ino: nat, k: nat, x: nat)
    requires BlockSizeOk(bs) && k % bs == 0 && x < 8 && ByteAt(bs, d, ino, k + x) != 0
    ensures BlockOf(bs, d, ino, k / bs) != 0
  {
    hide BlockOf;
    assert (k + x) / bs == k / bs;
  }

  lemma BlockMultiple(bs: nat, n: nat)
    requires BlockSizeOk(bs)
    ensures n * bs % bs == 0 && n * bs / bs == n
  {
  }

  lemma DirSolid(bs: nat, d: Disk, ino: nat)
    requires BlockSizeOk(bs) && DirOk(Content(bs, d, ino), bs)
    ensures Solid(bs, d, ino, |Content(bs, d, ino)|)
  {
    hide BlockOf, ByteAt, Tiled, Distinct, NeedPositive;
    var c := Content(bs, d, ino);
    forall n: nat | n * bs < |c|
      ensures BlockOf(bs, d, ino, n) != 0
    {
      var k := n * bs;
      BlockMultiple(bs, n);
      BlockStart(c, bs, 0, |c|, k);
      RecordByte(c, k);
      ByteNeedsBlock(bs, d, ino, k, if c[k + 4] != 0 then 4 else 5);
    }
  }

  /** Where two volumes give a file the same blocks, it has the same holes. */
  lemma SolidKept(bs: nat, d: Disk, live: set<nat>, owner: map<nat, Pos>, d': Disk, live': set<nat>,
                  owner': map<nat, Pos>, ino: nat, len: nat)
    requires BlockSizeOk(bs) && Solid(bs, d, ino, len) && ino in live && ino in live'
    requires TreeInv(bs / 4, d, live, owner) && TreeInv(bs / 4, d', live', owner')
    requires forall b | b in owner && InoOf(owner[b]) == ino :: b in owner' && owner'[b] == owner[b]
    ensures Solid(bs, d', ino, len)
  {
    hide FilePos, At, PosOk, Leaf, InoOf;
    forall n: nat | n * bs < len
      ensures BlockOf(bs, d', ino, n) != 0
    {
      var p := FilePos(bs / 4, ino, n);
      assert BlockOf(bs, d, ino, n) != 0;
      FilePosPlace(bs, live, ino, n);
      FilePosPlace(bs, live', ino, n);
      FilePosPlace(bs, {ino}, ino, n);
      assert InoOf(p) == ino;
      assert owner[At(d, p)] == p;
      assert owner'[At(d, p)] == p;
    }
  }

  lemma {:induction false} SolidNeeds(bs: nat, d: Disk, ino: nat, off: nat, count: nat)
    requires BlockSizeOk(bs) && Solid(bs, d, ino, off + count)
    ensures WriteNeeds(bs, d, ino, off, count) == {}
    decreases count
  {
    hide BlockOf, PathSet, Piece, At, WritePlaces;
    if count == 0 {
      WritePlacesNone(bs, ino, off);
    } else {
      WritePlacesStep(bs, ino, off, count);
      assert off / bs * bs < off + count;
      PathComplete(bs, d, ino, off / bs);
      SolidNeeds(bs, d, ino, off + Piece(bs, off, count), count - Piece(bs, off, count));
    }
  }

  /** A write that stays inside one block needs the path of that block. */
  lemma OneBlockPlaces(bs: nat, ino: nat, off: nat, count: nat)
    requires BlockSizeOk(bs) && 0 < count && off % bs + count <= bs
    ensures WritePlaces(bs, ino, off, count) == PathSet(bs / 4, ino, off / bs)
  {
    WritePlacesStep(bs, ino, off, count);
    hide WritePlaces;
    WritePlacesNone(bs, ino, off + count);
  }

  // ---- what a write to one file leaves alone ----

  /** Between d and d' only file ino was written to. */
  ghost predicate Changed(bs: nat, d: Disk, owner: map<nat, Pos>, d': Disk, owner': map<nat, Pos>, live: set<nat>,
                          ino: nat)
    requires BlockSizeOk(bs)
  {
    && OnlyContent(bs, d, d', live, ino)
    && Untouched(bs / 4, d, d', live, owner, ino)
    && OwnersGrow(owner, owner', ino)
  }

  lemma ChangedTwice(bs: nat, d0: Disk, o0: map<nat, Pos>, d1: Disk, o1: map<nat, Pos>, d2: Disk, o2: map<nat, Pos>,
                     live: set<nat>, ino: nat)
    requires BlockSizeOk(bs) && Changed(bs, d0, o0, d1, o1, live, ino) && Changed(bs, d1, o1, d2, o2, live, ino)
    ensures Changed(bs, d0, o0, d2, o2, live, ino)
  {
    hide OwnersBut, Untouched;
    UntouchedTwice(bs / 4, d0, d1, d2, live, o0, o1, ino);
  }

  lemma ChangedNot(bs: nat, d: Disk, owner: map<nat, Pos>, live: set<nat>, ino: nat)
    requires BlockSizeOk(bs) && ino < |d.inodes| && TreeInv(bs / 4, d, live, owner)
    ensures Changed(bs, d, owner, d, owner, live, ino)
  {
    hide PosOk, At;
    assert d.inodes == d.inodes[ino := d.inodes[ino]];
  }

  /** A written record lies inside the directory, or fills its own new block. */
  ghost predicate Room(bs: nat, d: Disk, ino: nat, o: nat, len: nat, free: nat)
    requires BlockSizeOk(bs)
  {
    && o % bs + len <= bs && o + len < TWO32
    && (Solid(bs, d, ino, o + len) || |WriteNeeds(bs, d, ino, o, len)| <= free)
  }

  lemma RoomInside(bs: nat, d: Disk, ino: nat, o: nat, len: nat, free: nat)
    requires BlockSizeOk(bs) && Solid(bs, d, ino, o + len) && o % bs + len <= bs && o + len < TWO32
    ensures Room(bs, d, ino, o, len, free) && WriteNeeds(bs, d, ino, o, len) == {}
  {
    SolidNeeds(bs, d, ino, o, len);
  }

  lemma RoomNeeds(bs: nat, d: Disk, ino: nat, o: nat, len: nat, free: nat, head: nat)
    requires BlockSizeOk(bs) && Room(bs, d, ino, o, len, free) && 0 < head <= len
    ensures WriteNeeds(bs, d, ino, o, head) == WriteNeeds(bs, d, ino, o, len)
    ensures |WriteNeeds(bs, d, ino, o, head)| <= free && o + len < TWO32
  {
    hide WritePlaces, PathSet, BlockOf;
    OneBlockPlaces(bs, ino, o, len);
    OneBlockPlaces(bs, ino, o, head);
    if Solid(bs, d, ino, o + len) { SolidNeeds(bs, d, ino, o, len); }
  }

  /** Once a header stands in a block, the rest of its record needs no more blocks. */
  lemma BehindHeader(bs: nat, d: Disk, ino: nat, o: nat, len: nat)
    requires BlockSizeOk(bs) && o % bs + len <= bs && HEADER <= len && NeedPositive(Content(bs, d, ino), o)
    ensures WriteNeeds(bs, d, ino, o + HEADER, len - HEADER) == {}
  {
    hide WritePlaces, PathSet, BlockOf;
    RecordByte(Content(bs, d, ino), o);
    var x := if Content(bs, d, ino)[o + 4] != 0 then 4 else 5;
    assert (o + x) / bs == o / bs;
    assert BlockOf(bs, d, ino, o / bs) != 0;
    PathComplete(bs, d, ino, o / bs);
    if len == HEADER {
      WritePlacesNone(bs, ino, o + HEADER);
    } else {
      assert (o + HEADER) / bs == o / bs && (o + HEADER) % bs == o % bs + HEADER;
      OneBlockPlaces(bs, ino, o + HEADER, len - HEADER);
    }
  }

  lemma HeaderStands(c: seq<byte>, o: nat, e: DirRecords.Entry)
    requires EntryFits(e) && HEADER <= e.recLen
    ensures NeedPositive(Overlay(c, o, Encode(e)), o)
  {
    EntryOverlay(c, o, e);
  }

  /** writedir_ext2 with a name. */
  method PutDirRecord(v: Volume, h: FileHandle, e: DirRecords.Entry, name: Name, o: nat)
    requires v.Consistent() && Open(v, h) && BlockSizeOk(v.geo.blockSize)
    requires EntryFits(e) && e.nameLen == |name| && HEADER + |name| <= e.recLen
    requires Room(v.geo.blockSize, v.D(), h.ino, o, e.recLen, v.freeBlocks)
    modifies v`blocks, v`inodes, v`groups, v`blockBits, v`freeBlocks, v`used, v`owner, h`inode, h`it
    ensures v.Consistent() && Open(v, h)
    ensures Content(v.geo.blockSize, v.D(), h.ino) == PutRecord(Content(v.geo.blockSize, old(v.D()), h.ino), o, e, name)
    ensures Changed(v.geo.blockSize, old(v.D()), old(v.owner), v.D(), v.owner, v.live, h.ino)
    ensures v.freeBlocks + |WriteNeeds(v.geo.blockSize, old(v.D()), h.ino, o, e.recLen)| == old(v.freeBlocks)
    ensures WriteNeeds(v.geo.blockSize, old(v.D()), h.ino, o, e.recLen) == {}
      ==> v.groups == old(v.groups) && v.owner == old(v.owner) && v.blockBits == old(v.blockBits)
  {
    hide *;
    HeaderIs();
    ghost var bs, d0, o0 := v.geo.blockSize, v.D(), v.owner;
    RoomNeeds(bs, d0, h.ino, o, e.recLen, v.freeBlocks, HEADER);
    var n := WriteFile(v, h, Encode(e), o);
    ghost var d1, o1 := v.D(), v.owner;
    ChangedIs(bs, d0, o0, d1, o1, v.live, h.ino);
    HeaderStands(Content(bs, d0, h.ino), o, e);
    RoomBlock(bs, d0, h.ino, o, e.recLen, old(v.freeBlocks));
    BehindHeader(bs, d1, h.ino, o, e.recLen);
    NoneMissing(WriteNeeds(bs, d1, h.ino, o + HEADER, e.recLen - HEADER));
    n := WriteFile(v, h, name + Zeros(e.recLen - HEADER - |name|), o + HEADER);
    ChangedIs(bs, d1, o1, v.D(), v.owner, v.live, h.ino);
    ChangedTwice(bs, d0, o0, d1, o1, v.D(), v.owner, v.live, h.ino);
    PutRecordIs(Content(bs, d0, h.ino), o, e, name);
  }

  lemma PutRecordIs(c: seq<byte>, o: nat, e: DirRecords.Entry, name: Name)
    requires HEADER + |name| <= e.recLen
    ensures PutRecord(c, o, e, name) == Overlay(Overlay(c, o, Encode(e)), o + HEADER,
                                                name + Zeros(e.recLen - HEADER - |name|))
  {
  }

  lemma NoneMissing(s: set<Pos>)
    requires s == {}
    ensures |s| == 0
  {
  }

  lemma RoomBlock(bs: nat, d: Disk, ino: nat, o: nat, len: nat, free: nat)
    requires BlockSizeOk(bs) && Room(bs, d, ino, o, len, free)
    ensures o % bs + len <= bs
  {
  }

  lemma ChangedIs(bs: nat, d: Disk, owner: map<nat, Pos>, d': Disk, owner': map<nat, Pos>, live: set<nat>, ino: nat)
    requires BlockSizeOk(bs)
    ensures Changed(bs, d, owner, d', owner', live, ino) <==>
      OnlyContent(bs, d, d', live, ino) && Untouched(bs / 4, d, d', live, owner, ino) && OwnersGrow(owner, owner', ino)
  {
  }

  /** Where two volumes give all blocks the same owners, a write needs the same new blocks on both. */
  lemma NeedsKept(bs: nat, d: Disk, d': Disk, live: set<nat>, owner: map<nat, Pos>, ino: nat, off: nat, count: nat)
    requires BlockSizeOk(bs) && TreeInv(bs / 4, d, live, owner) && TreeInv(bs / 4, d', live, owner)
    requires ino in live && off + count < TWO32
    ensures WriteNeeds(bs, d', ino, off, count) == WriteNeeds(bs, d, ino, off, count)
  {
    hide At, PosOk, WritePlaces;
    WritePlacesOk(bs, live, ino, off, count);
  }

  /** writedir_ext2 and write_dir_entry_ext2 of a header alone, over bytes the directory has. */
  method PutHeader(v: Volume, h: FileHandle, e: DirRecords.Entry, o: nat)
    requires v.Consistent() && Open(v, h) && BlockSizeOk(v.geo.blockSize)
    requires Solid(v.geo.blockSize, v.D(), h.ino, o + HEADER) && o + HEADER < TWO32
    modifies v`blocks, v`inodes, v`groups, v`blockBits, v`freeBlocks, v`used, v`owner, h`inode, h`it
    ensures v.Consistent() && Open(v, h)
    ensures Content(v.geo.blockSize, v.D(), h.ino) == Overlay(Content(v.geo.blockSize, old(v.D()), h.ino), o, Encode(e))
    ensures Changed(v.geo.blockSize, old(v.D()), old(v.owner), v.D(), v.owner, v.live, h.ino)
    ensures v.freeBlocks == old(v.freeBlocks) && v.groups == old(v.groups)
    ensures v.owner == old(v.owner) && v.blockBits == old(v.blockBits)
  {
    hide *;
    HeaderIs();
    SolidNeeds(v.geo.blockSize, v.D(), h.ino, o, HEADER);
    NoneMissing(WriteNeeds(v.geo.blockSize, v.D(), h.ino, o, HEADER));
    var n := WriteFile(v, h, Encode(e), o);
    ChangedIs(v.geo.blockSize, old(v.D()), old(v.owner), v.D(), v.owner, v.live, h.ino);
  }
}
