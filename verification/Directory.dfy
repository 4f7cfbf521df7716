/** Directory operations on open directory handles: readdir, lookup, create_dir_entry and unlink. */
module Directories {
  import opened Bytes
  import opened Bitmap
  import opened Layout
  import opened Tree
  import opened Contents
  import opened Volumes
  import opened FileHandles
  import opened FileIO
  import opened NewInodes
  import opened DirRecords
  import opened RecordBytes
  import opened DirStores

  /** The bytes of the file behind a handle. */
  ghost function DirBytes(v: Volume, h: FileHandle): seq<byte>
    requires BlockSizeOk(v.geo.blockSize)
    reads v`blocks, v`inodes, h`ino
  {
    Content(v.geo.blockSize, v.D(), h.ino)
  }

  lemma BytesIs(v: Volume, h: FileHandle)
    requires BlockSizeOk(v.geo.blockSize)
    ensures DirBytes(v, h) == Content(v.geo.blockSize, v.D(), h.ino)
  {
  }

  /** An open directory on a consistent volume. */
  ghost predicate OpenDir(v: Volume, h: FileHandle)
    reads v, h
  {
    && v.Consistent() && Open(v, h)
    && BlockSizeOk(v.geo.blockSize) && DirOk(DirBytes(v, h), v.geo.blockSize)
  }

  lemma OpenDirFacts(v: Volume, h: FileHandle)
    requires OpenDir(v, h)
    ensures v.Consistent() && v.Sound() && Open(v, h) && BlockSizeOk(v.geo.blockSize) && v.geo.blockSize > 0
    ensures DirOk(DirBytes(v, h), v.geo.blockSize)
    ensures h.ino in v.live && |DirBytes(v, h)| == h.inode.size < TWO32
    ensures ZeroTail(v.geo.blockSize, v.D(), v.live)
    ensures v.geo.blockSize == 1024 || v.geo.blockSize == 2048
  {
    OpenSize(v, h);
  }

  lemma DirOkFacts(c: seq<byte>, bs: nat)
    requires bs > 0 && DirOk(c, bs)
    ensures |c| % bs == 0 && Tiled(c, bs, 0, |c|) && Tiled(c, bs, 0, 0) && NameMap(c, bs, 0, 0) == map[]
    ensures DirMap(c, bs) == NameMap(c, bs, 0, |c|)
  {
  }

  /** readdir_ext2, and read_dir_entry_ext2 as its first half. */
  method Readdir(v: Volume, h: FileHandle, dirOffset: nat) returns (e: Entry, name: Name, next: nat)
    requires v.Sound() && Open(v, h) && BlockSizeOk(v.geo.blockSize)
    requires dirOffset + HEADER + EntryAt(DirBytes(v, h), dirOffset).nameLen <= |DirBytes(v, h)| < TWO32
    modifies v`inodes, h`it
    ensures v.Sound() && Open(v, h) && v.inodes == old(v.inodes) && v.D() == old(v.D())
    ensures e == EntryAt(DirBytes(v, h), dirOffset) && name == NameAt(DirBytes(v, h), dirOffset)
      && next == dirOffset + e.recLen
  {
    hide *;
    BytesIs(v, h);
    HeaderIs();
    ghost var c := DirBytes(v, h);
    var header := ReadFile(v, h, 8, dirOffset);
    BytesIs(v, h);
    e := EntryAt(header, 0);
    ReadHeader(c, dirOffset, header);
    name := ReadFile(v, h, e.nameLen, dirOffset + 8);
    BytesIs(v, h);
    ReadName(c, dirOffset, name);
    next := dirOffset + e.recLen;
  }

  lemma ReadHeader(c: seq<byte>, o: nat, header: seq<byte>)
    requires o + HEADER <= |c| && header == Clamp(c, o, 8)
    ensures |header| == 8 && EntryAt(header, 0) == EntryAt(c, o)
  {
    EntrySame(header, 0, c, o);
  }

  lemma ReadName(c: seq<byte>, o: nat, name: seq<byte>)
    requires o + HEADER + EntryAt(c, o).nameLen <= |c| && name == Clamp(c, o + 8, EntryAt(c, o).nameLen)
    ensures name == NameAt(c, o)
  {
  }

  /** One step of a walk over the records. */
  lemma WalkStep(c: seq<byte>, bs: nat, a: nat)
    requires 0 < bs <= 2048 && a < |c| && Tiled(c, bs, 0, a) && Tiled(c, bs, a, |c|)
    ensures RecordIn(c, bs, a)
    ensures a + HEADER + EntryAt(c, a).nameLen <= |c| && a < a + EntryAt(c, a).recLen <= |c|
    ensures Tiled(c, bs, 0, a + EntryAt(c, a).recLen) && Tiled(c, bs, a + EntryAt(c, a).recLen, |c|)
  {
    hide RecOk, NamesAt, EntryAt;
    TiledNext(c, bs, a, |c|);
    RecordBounds(c, bs, a);
    TiledOne(c, bs, a);
    TiledJoin(c, bs, 0, a, a + EntryAt(c, a).recLen);
  }

  /** The names seen so far and the name of record a. */
  lemma WalkNames(c: seq<byte>, bs: nat, a: nat, b: nat)
    requires bs > 0 && Tiled(c, bs, 0, a) && Tiled(c, bs, 0, b) && b == a + EntryAt(c, a).recLen && RecordIn(c, bs, a)
    ensures NameMap(c, bs, 0, b) == NamesAt(c, a) + NameMap(c, bs, 0, a)
  {
    hide *;
    RecordIsOk(c, bs, a);
    TiledOne(c, bs, a);
    TiledJoin(c, bs, 0, a, b);
  }

  lemma RecordIsOk(c: seq<byte>, bs: nat, o: nat)
    requires bs > 0 && RecordIn(c, bs, o)
    ensures RecOk(c, bs, o) && NeedPositive(c, o)
  {
  }

  /** Where a walk has arrived: `offset` is the record just before `a`, `before` the one before that. */
  ghost predicate Trail(c: seq<byte>, bs: nat, a: nat, offset: nat, before: nat)
    requires bs > 0
  {
    if a == 0 then offset == 0 && before == 0
    else
      && RecordIn(c, bs, offset) && a == offset + EntryAt(c, offset).recLen
      && (if offset == 0 then before == 0 else Neighbours(c, bs, before, offset))
  }

  lemma TrailStep(c: seq<byte>, bs: nat, a: nat, offset: nat, before: nat)
    requires bs > 0 && Trail(c, bs, a, offset, before) && RecordIn(c, bs, a)
    ensures Trail(c, bs, a + EntryAt(c, a).recLen, a, offset)
    ensures if a == 0 then offset == 0 else Neighbours(c, bs, offset, a)
  {
  }

  /** The record a lookup has found. */
  ghost predicate FoundAt(c: seq<byte>, bs: nat, fname: Name, e: Entry, offset: nat, before: nat)
    requires bs > 0
  {
    && RecordIn(c, bs, offset) && e == EntryAt(c, offset) && e.inode != 0 && NameAt(c, offset) == fname
    && (if offset == 0 then before == 0 else Neighbours(c, bs, before, offset))
  }

  /** strcmp on the name buffer: a null record's empty name matches no name one looks for. */
  lemma Compared(c: seq<byte>, bs: nat, o: nat, fname: Name)
    requires 0 < bs <= 2048 && RecordIn(c, bs, o) && fname != []
    ensures NameAt(c, o) == fname <==> fname in NamesAt(c, o)
    ensures NameAt(c, o) == fname ==> EntryAt(c, o).inode != 0 && NamesAt(c, o)[fname] == EntryAt(c, o).inode
  {
    RecordBounds(c, bs, o);
  }

  /** lookup_name_in_dir_ext2: finds the record of a name exactly when the directory maps the name. */
  method LookupName(v: Volume, h: FileHandle, fname: Name) returns (found: bool, e: Entry, offset: nat, before: nat)
    requires OpenDir(v, h) && fname != []
    modifies v`inodes, h`it
    ensures OpenDir(v, h) && v.inodes == old(v.inodes) && v.D() == old(v.D())
    ensures v.geo.blockSize > 0 && (found <==> fname in DirMap(DirBytes(v, h), v.geo.blockSize))
    ensures found ==> FoundAt(DirBytes(v, h), v.geo.blockSize, fname, e, offset, before)
    ensures found ==> e.inode == DirMap(DirBytes(v, h), v.geo.blockSize)[fname]
  {
    hide *;
    OpenDirFacts(v, h);
    ghost var c, bs := DirBytes(v, h), v.geo.blockSize;
    DirOkFacts(c, bs);
    var dirOffset := 0;
    var name;
    found, offset, before, e := false, 0, 0, DirEntry(0, 0, 0, 0);
    TrailStart(c, bs);
    while dirOffset < h.inode.size
      invariant v.Sound() && Open(v, h) && v.inodes == old(v.inodes) && v.D() == old(v.D()) && h.inode.size == |c|
      invariant DirBytes(v, h) == c
      invariant 0 <= dirOffset <= |c| && Tiled(c, bs, 0, dirOffset) && Tiled(c, bs, dirOffset, |c|)
      invariant Trail(c, bs, dirOffset, offset, before)
      invariant !found && fname !in NameMap(c, bs, 0, dirOffset)
      decreases |c| - dirOffset
    {
      WalkStep(c, bs, dirOffset);
      WalkNames(c, bs, dirOffset, dirOffset + EntryAt(c, dirOffset).recLen);
      TrailStep(c, bs, dirOffset, offset, before);
      Compared(c, bs, dirOffset, fname);
      before := offset;
      offset := dirOffset;
      e, name, dirOffset := Readdir(v, h, dirOffset);
      BytesIs(v, h);
      if name == fname {
        found := true;
        FoundIntro(c, bs, fname, e, offset, before);
        NamesInDir(c, bs, offset);
        break;
      }
    }
    BytesIs(v, h);
    OpenDirIntro(v, h, old(v.D()));
  }

  lemma TrailStart(c: seq<byte>, bs: nat)
    requires bs > 0
    ensures Trail(c, bs, 0, 0, 0)
  {
  }

  lemma FoundIntro(c: seq<byte>, bs: nat, fname: Name, e: Entry, offset: nat, before: nat)
    requires bs > 0 && RecordIn(c, bs, offset) && e == EntryAt(c, offset) && e.inode != 0 && NameAt(c, offset) == fname
    requires if offset == 0 then before == 0 else Neighbours(c, bs, before, offset)
    ensures FoundAt(c, bs, fname, e, offset, before)
  {
  }

  /** Reading leaves the directory open and as it was. */
  lemma OpenDirIntro(v: Volume, h: FileHandle, d: Disk)
    requires v.Sound() && Open(v, h) && BlockSizeOk(v.geo.blockSize) && v.D() == d
      && ZeroTail(v.geo.blockSize, d, v.live)
    requires DirOk(Content(v.geo.blockSize, d, h.ino), v.geo.blockSize)
    ensures OpenDir(v, h)
  {
  }

  // ---- create_dir_entry_ext2 ----

  /** The first record from a on whose slack holds `need` bytes; |c| when there is none. */
  ghost function FirstRoom(c: seq<byte>, bs: nat, a: nat, need: nat): nat
    requires bs > 0 && Tiled(c, bs, a, |c|)
    decreases |c| - a
  {
    if a == |c| then |c|
    else if SlackLen(EntryAt(c, a)) >= need then a
    else FirstRoom(c, bs, a + EntryAt(c, a).recLen, need)
  }

  lemma FirstRoomStep(c: seq<byte>, bs: nat, a: nat, need: nat)
    requires bs > 0 && a < |c| && Tiled(c, bs, a, |c|) && Tiled(c, bs, a + EntryAt(c, a).recLen, |c|)
    ensures FirstRoom(c, bs, a, need)
         == if SlackLen(EntryAt(c, a)) >= need then a else FirstRoom(c, bs, a + EntryAt(c, a).recLen, need)
  {
  }

  lemma FirstRoomEnd(c: seq<byte>, bs: nat, need: nat)
    requires bs > 0
    ensures Tiled(c, bs, |c|, |c|) && FirstRoom(c, bs, |c|, need) == |c|
  {
  }

  lemma {:induction false} FirstRoomIn(c: seq<byte>, bs: nat, a: nat, need: nat)
    requires 0 < bs <= 2048 && a <= |c| && Tiled(c, bs, 0, a) && Tiled(c, bs, a, |c|)
    ensures a <= FirstRoom(c, bs, a, need) <= |c|
    ensures FirstRoom(c, bs, a, need) < |c| ==>
      RecordIn(c, bs, FirstRoom(c, bs, a, need)) && SlackLen(EntryAt(c, FirstRoom(c, bs, a, need))) >= need
    decreases |c| - a
  {
    hide *;
    if a == |c| {
      FirstRoomEnd(c, bs, need);
    } else {
      WalkStep(c, bs, a);
      FirstRoomStep(c, bs, a, need);
      if SlackLen(EntryAt(c, a)) < need { FirstRoomIn(c, bs, a + EntryAt(c, a).recLen, need); }
    }
  }

  /** No record before the one found has room. */
  lemma {:induction false} FirstRoomFirst(c: seq<byte>, bs: nat, a: nat, need: nat, r: nat)
    requires 0 < bs <= 2048 && a <= |c| && Tiled(c, bs, 0, a) && Tiled(c, bs, a, |c|)
    requires RecordIn(c, bs, r) && a <= r < FirstRoom(c, bs, a, need)
    ensures SlackLen(EntryAt(c, r)) < need
    decreases |c| - a
  {
    hide *;
    FirstRoomIn(c, bs, a, need);
    FirstRoomEnd(c, bs, need);
    WalkStep(c, bs, a);
    FirstRoomStep(c, bs, a, need);
    if a < r {
      RecordEnd(c, bs, r);
      TiledSplit(c, bs, 0, a, r);
      TiledNext(c, bs, a, r);
      FirstRoomFirst(c, bs, a + EntryAt(c, a).recLen, need, r);
    }
  }

  /** What a search for room has found: the first record with enough slack, or the last record of the directory. */
  ghost predicate RoomFound(c: seq<byte>, bs: nat, need: nat, room: bool, last: DirRecords.Entry, o: nat)
    requires bs > 0 && DirOk(c, bs)
  {
    && (room <==> FirstRoom(c, bs, 0, need) < |c|)
    && (c == [] ==> o == 0)
    && (c != [] ==> RecordIn(c, bs, o) && last == EntryAt(c, o))
    && (room ==> o == FirstRoom(c, bs, 0, need) && SlackLen(last) >= need)
    && (!room && c != [] ==> o + last.recLen == |c| && SlackLen(last) < need)
  }

  /** The search loop of create_dir_entry_ext2. */
  method FindRoom(v: Volume, h: FileHandle, need: nat) returns (room: bool, last: DirRecords.Entry, offset: nat)
    requires OpenDir(v, h)
    modifies v`inodes, h`it
    ensures OpenDir(v, h) && v.inodes == old(v.inodes) && v.D() == old(v.D())
    ensures v.geo.blockSize > 0 && DirOk(DirBytes(v, h), v.geo.blockSize)
    ensures RoomFound(DirBytes(v, h), v.geo.blockSize, need, room, last, offset)
  {
    hide *;
    OpenDirFacts(v, h);
    ghost var c, bs := DirBytes(v, h), v.geo.blockSize;
    DirOkFacts(c, bs);
    Advance(v, h, 0);
    var dirOffset, name := 0, [];
    room, last, offset := false, DirEntry(0, 0, 0, 0), 0;
    while dirOffset < h.inode.size
      invariant v.Sound() && Open(v, h) && v.inodes == old(v.inodes) && v.D() == old(v.D()) && h.inode.size == |c|
      invariant DirBytes(v, h) == c
      invariant 0 <= dirOffset <= |c| && Tiled(c, bs, 0, dirOffset) && Tiled(c, bs, dirOffset, |c|)
      invariant dirOffset == 0 ==> offset == 0
      invariant dirOffset > 0
        ==> RecordIn(c, bs, offset) && last == EntryAt(c, offset) && offset + last.recLen == dirOffset
      invariant dirOffset > 0 ==> SlackLen(last) < need
      invariant !room && FirstRoom(c, bs, 0, need) == FirstRoom(c, bs, dirOffset, need)
      decreases |c| - dirOffset
    {
      WalkStep(c, bs, dirOffset);
      FirstRoomStep(c, bs, dirOffset, need);
      offset := dirOffset;
      last, name, dirOffset := Readdir(v, h, dirOffset);
      BytesIs(v, h);
      if SlackLen(last) >= need {
        room := true;
        break;
      }
    }
    BytesIs(v, h);
    FirstRoomEnd(c, bs, need);
    OpenDirIntro(v, h, old(v.D()));
    RoomFoundIntro(c, bs, need, room, last, offset);
  }

  lemma RoomFoundIntro(c: seq<byte>, bs: nat, need: nat, room: bool, last: DirRecords.Entry, o: nat)
    requires bs > 0 && DirOk(c, bs) && Tiled(c, bs, 0, |c|)
    requires room <==> FirstRoom(c, bs, 0, need) < |c|
    requires c == [] ==> o == 0
    requires c != [] ==> RecordIn(c, bs, o) && last == EntryAt(c, o)
    requires room ==> o == FirstRoom(c, bs, 0, need) && SlackLen(last) >= need
    requires !room && c != [] ==> o + last.recLen == |c| && SlackLen(last) < need
    ensures RoomFound(c, bs, need, room, last, o)
  {
  }

  /** The directory after create_dir_entry_ext2. */
  ghost function Inserted(c: seq<byte>, bs: nat, ino: nat, fileType: nat, name: Name): seq<byte>
    requires bs > 0 && DirOk(c, bs)
  {
    var o := FirstRoom(c, bs, 0, NeedLen(|name|));
    if o < |c| then SplitInsert(c, o, ino, fileType, name) else AppendInsert(c, bs, ino, fileType, name)
  }

  /** Wherever the new record goes, the directory then maps the new name to the new inode and all others as before. */
  lemma InsertedOk(c: seq<byte>, bs: nat, ino: nat, fileType: nat, name: Name)
    requires bs == 1024 || bs == 2048
    requires DirOk(c, bs) && NameOk(name) && name !in DirMap(c, bs) && 0 < ino < TWO32 && fileType < 0x100
    ensures DirOk(Inserted(c, bs, ino, fileType, name), bs)
    ensures DirMap(Inserted(c, bs, ino, fileType, name), bs) == DirMap(c, bs)[name := ino]
    ensures forall self, parent | Dots(c, self, parent) :: Dots(Inserted(c, bs, ino, fileType, name), self, parent)
  {
    hide DirOk, DirMap, NameOk, Dots, SplitInsert, AppendInsert, NeedLen, SlackLen, Tiled, RecordIn, EntryAt;
    DirOkFacts(c, bs);
    var o := FirstRoom(c, bs, 0, NeedLen(|name|));
    FirstRoomIn(c, bs, 0, NeedLen(|name|));
    if o < |c| {
      InsertSplit(c, bs, o, ino, fileType, name);
      forall self, parent | Dots(c, self, parent)
        ensures Dots(SplitInsert(c, o, ino, fileType, name), self, parent)
      {
        DotsAfterSplit(c, bs, o, ino, fileType, name, self, parent);
      }
    } else {
      InsertAppend(c, bs, ino, fileType, name);
      forall self, parent | Dots(c, self, parent)
        ensures Dots(AppendInsert(c, bs, ino, fileType, name), self, parent)
      {
        DotsAfterAppend(c, bs, ino, fileType, name, self, parent);
      }
    }
  }

  /** Entering a name, byte by byte. */
  lemma InsertedBytes(c: seq<byte>, bs: nat, ino: nat, fileType: nat, name: Name)
    requires bs == 1024 || bs == 2048
    requires DirOk(c, bs) && NameOk(name) && 0 < ino < TWO32 && fileType < 0x100
    ensures RecordMade(bs, c, Inserted(c, bs, ino, fileType, name), ino, fileType, name)
  {
    hide *;
    DirOkFacts(c, bs);
    var need := NeedLen(|name|);
    var o := FirstRoom(c, bs, 0, need);
    FirstRoomIn(c, bs, 0, need);
    forall r: nat | RecordIn(c, bs, r) && r < o
      ensures SlackLen(EntryAt(c, r)) < need
    {
      FirstRoomFirst(c, bs, 0, need, r);
    }
    InsertedIs(c, bs, ino, fileType, name);
    if o < |c| {
      MadeInside(c, bs, o, ino, fileType, name);
    } else {
      MadeBehind(c, bs, ino, fileType, name);
    }
    MadeIs(bs, c, Inserted(c, bs, ino, fileType, name), ino, fileType, name, o);
  }

  lemma InsertedIs(c: seq<byte>, bs: nat, ino: nat, fileType: nat, name: Name)
    requires bs > 0 && DirOk(c, bs) && Tiled(c, bs, 0, |c|)
    ensures Inserted(c, bs, ino, fileType, name) == (
      var o := FirstRoom(c, bs, 0, NeedLen(|name|));
      if o < |c| then SplitInsert(c, o, ino, fileType, name) else AppendInsert(c, bs, ino, fileType, name))
  {
    hide DirOk, FirstRoom, NeedLen, SplitInsert, AppendInsert;
  }

  /** create_dir_entry_ext2 does not look for the name. Entered a second time it leaves no directory; so a directory
      stays one exactly when the name is new. */
  lemma InsertedIff(c: seq<byte>, bs: nat, ino: nat, fileType: nat, name: Name)
    requires bs == 1024 || bs == 2048
    requires DirOk(c, bs) && NameOk(name) && 0 < ino < TWO32 && fileType < 0x100
    ensures DirOk(Inserted(c, bs, ino, fileType, name), bs) <==> name !in DirMap(c, bs)
  {
    hide DirOk, DirMap, NameOk, Dots, SplitInsert, AppendInsert, NeedLen, SlackLen, Tiled, RecordIn, EntryAt;
    if name !in DirMap(c, bs) {
      InsertedOk(c, bs, ino, fileType, name);
    } else {
      DirOkFacts(c, bs);
      FirstRoomIn(c, bs, 0, NeedLen(|name|));
      var o := FirstRoom(c, bs, 0, NeedLen(|name|));
      if o < |c| {
        SplitTwice(c, bs, o, ino, fileType, name);
      } else {
        AppendTwice(c, bs, ino, fileType, name);
      }
    }
  }

  /** The blocks a new record may take: none where there is room, else those that the block behind the directory
      needs. */
  ghost function InsertNeeds(bs: nat, d: Disk, dir: nat, name: Name): set<Pos>
    requires BlockSizeOk(bs) && DirOk(Content(bs, d, dir), bs)
  {
    var c := Content(bs, d, dir);
    if FirstRoom(c, bs, 0, NeedLen(|name|)) < |c| then {} else WriteNeeds(bs, d, dir, |c|, bs)
  }

  /** A name can be stored: it is proper and there is space for its record. */
  ghost predicate CanInsert(bs: nat, d: Disk, dir: nat, name: Name, free: nat) {
    && BlockSizeOk(bs) && DirOk(Content(bs, d, dir), bs)
    && NameOk(name) && name !in DirMap(Content(bs, d, dir), bs)
    && |InsertNeeds(bs, d, dir, name)| <= free
    && (FirstRoom(Content(bs, d, dir), bs, 0, NeedLen(|name|)) == |Content(bs, d, dir)|
        ==> |Content(bs, d, dir)| + bs < TWO32)
  }

  /** create_dir_entry_ext2 up to the link count: where the new record starts and ends, and how long the last one
      gets. */
  function NewStart(bs: nat, room: bool, empty: bool, last: DirRecords.Entry, o: nat, need: nat): nat
    requires bs > 0
  {
    if room then o + UsedLen(last)
    else
      var start := if empty then o else o + NeedLen(last.nameLen);
      if bs - start % bs < need then start + (bs - start % bs) else start
  }

  function AlignTo(n: nat, a: nat): nat
    requires a > 0
  {
    (n + a - 1) / a * a
  }

  function NewEnd(bs: nat, room: bool, last: DirRecords.Entry, o: nat, start: nat, need: nat, size: nat): nat
    requires bs > 0
  {
    if room then o + last.recLen else AlignTo(if start + need > size then start + need else size, bs)
  }

  /** Where a record with room was found, the new record takes its slack. */
  lemma PlaceInside(c: seq<byte>, bs: nat, last: DirRecords.Entry, o: nat, name: Name)
    requires bs == 1024 || bs == 2048
    requires DirOk(c, bs) && NameOk(name) && RoomFound(c, bs, NeedLen(|name|), true, last, o)
    ensures var start := o + UsedLen(last);
      && o == FirstRoom(c, bs, 0, NeedLen(|name|)) < |c| && RecordIn(c, bs, o) && last == EntryAt(c, o)
      && o + last.recLen == start + SlackLen(last) <= |c| && start % bs + SlackLen(last) <= bs
        && NeedLen(|name|) <= SlackLen(last)
  {
    hide EntryAt, NeedLen, RecordIn, DirOk, FirstRoom;
    RecordBounds(c, bs, o);
    ModInBlock(bs, o, UsedLen(last));
  }

  /** Where there is no room, the new record gets a block of its own and the last record keeps its length. */
  lemma PlaceBehind(c: seq<byte>, bs: nat, last: DirRecords.Entry, o: nat, name: Name)
    requires bs == 1024 || bs == 2048
    requires DirOk(c, bs) && NameOk(name) && RoomFound(c, bs, NeedLen(|name|), false, last, o)
    ensures var start := NewStart(bs, false, c == [], last, o, NeedLen(|name|));
      && FirstRoom(c, bs, 0, NeedLen(|name|)) == |c| == start && start % bs == 0
      && NewEnd(bs, false, last, o, start, NeedLen(|name|), |c|) == |c| + bs
      && (c != [] ==> start == o + last.recLen && last == EntryAt(c, o) && RecordIn(c, bs, o))
  {
    hide EntryAt, NameAt, NeedLen, RecordIn, Tiled, Distinct, NameOk, UsedLen, SlackLen, FirstRoom, AlignTo, DirOk;
    var need := NeedLen(|name|);
    NeedFitsBlock(name);
    NeedLenFacts(|name|);
    DirOkFacts(c, bs);
    FirstRoomIn(c, bs, 0, need);
    EndOfBlock(bs, |c|, need);
    if c != [] {
      RecordBounds(c, bs, o);
      AppendStart(bs, o, last, |c|, need);
    }
  }

  lemma EndOfBlock(bs: nat, n: nat, need: nat)
    requires bs == 1024 || bs == 2048
    requires n % bs == 0 && 0 < need <= 264
    ensures AlignTo(n + need, bs) == n + bs
  {
  }

  lemma CanInsertFacts(bs: nat, d: Disk, dir: nat, name: Name, free: nat)
    requires CanInsert(bs, d, dir, name, free)
    ensures BlockSizeOk(bs) && DirOk(Content(bs, d, dir), bs)
    ensures var c := Content(bs, d, dir);
      && NameOk(name) && name !in DirMap(c, bs) && Tiled(c, bs, 0, |c|) && 1 <= |name| <= 254
      && FirstRoom(c, bs, 0, NeedLen(|name|)) <= |c|
      && (FirstRoom(c, bs, 0, NeedLen(|name|)) < |c| ==> InsertNeeds(bs, d, dir, name) == {})
      && (FirstRoom(c, bs, 0, NeedLen(|name|)) == |c| ==>
            InsertNeeds(bs, d, dir, name) == WriteNeeds(bs, d, dir, |c|, bs) && |c| + bs < TWO32)
      && |InsertNeeds(bs, d, dir, name)| <= free
  {
    hide NeedLen, DirMap;
    DirOkFacts(Content(bs, d, dir), bs);
    hide DirOk, Tiled;
    FirstRoomIn(Content(bs, d, dir), bs, 0, NeedLen(|name|));
  }

  lemma InsertedInside(c: seq<byte>, bs: nat, ino: nat, fileType: nat, name: Name, o: nat)
    requires bs > 0 && DirOk(c, bs) && o == FirstRoom(c, bs, 0, NeedLen(|name|)) < |c|
    ensures var e := EntryAt(c, o);
      var c1 := if e.inode == 0 then c else Overlay(c, o, Encode(e.(recLen := UsedLen(e))));
      Inserted(c, bs, ino, fileType, name) == PutRecord(c1, o + UsedLen(e),
                                                        DirEntry(ino, SlackLen(e), |name|, fileType), name)
  {
    hide PutRecord, EntryAt, DirOk, FirstRoom, NeedLen;
  }

  lemma InsertedBehind(c: seq<byte>, bs: nat, ino: nat, fileType: nat, name: Name)
    requires bs > 0 && DirOk(c, bs) && FirstRoom(c, bs, 0, NeedLen(|name|)) == |c|
    ensures Inserted(c, bs, ino, fileType, name) == PutRecord(c, |c|, DirEntry(ino, bs, |name|, fileType), name)
  {
    hide PutRecord, DirOk, FirstRoom, NeedLen;
  }

  lemma NewRecordFits(bs: nat, ino: nat, len: nat, name: Name, fileType: nat)
    requires bs == 1024 || bs == 2048
    requires 0 < ino < TWO32 && fileType < 0x100 && 1 <= |name| <= 254 && NeedLen(|name|) <= len <= bs
    ensures EntryFits(DirEntry(ino, len, |name|, fileType)) && HEADER + |name| <= len
  {
    NeedLenFacts(|name|);
  }

  /** The last step of create_dir_entry_ext2 before the link count: the new record is written at `start`. */
  ghost predicate Stored(v: Volume, h: FileHandle, d: Disk, owner: map<nat, Pos>, groups: seq<GroupDesc>, free: nat,
                         needs: set<Pos>)
    reads v, h
  {
    && BlockSizeOk(v.geo.blockSize) && Changed(v.geo.blockSize, d, owner, v.D(), v.owner, v.live, h.ino)
    && v.freeBlocks + |needs| == free
    && (needs == {} ==> v.groups == groups && v.owner == owner)
  }

  lemma StoredIs(v: Volume, h: FileHandle, d: Disk, owner: map<nat, Pos>, groups: seq<GroupDesc>, free: nat,
                 needs: set<Pos>)
    requires BlockSizeOk(v.geo.blockSize) && Changed(v.geo.blockSize, d, owner, v.D(), v.owner, v.live, h.ino)
    requires v.freeBlocks + |needs| == free
    requires needs == {} ==> v.groups == groups && v.owner == owner
    ensures Stored(v, h, d, owner, groups, free, needs)
  {
  }

  /** create_dir_entry_ext2 where record o has room. */
  method StoreInside(v: Volume, h: FileHandle, ino: nat, fileType: nat, fname: Name, last: DirRecords.Entry, o: nat)
    requires OpenDir(v, h) && 0 < ino < TWO32 && fileType < 0x100 && NameOk(fname)
    requires v.geo.blockSize > 0 && RoomFound(DirBytes(v, h), v.geo.blockSize, NeedLen(|fname|), true, last, o)
    modifies v`blocks, v`inodes, v`groups, v`blockBits, v`freeBlocks, v`used, v`owner, h`inode, h`it
    ensures v.Consistent() && Open(v, h)
    ensures DirBytes(v, h) == Inserted(old(DirBytes(v, h)), v.geo.blockSize, ino, fileType, fname)
    ensures Stored(v, h, old(v.D()), old(v.owner), old(v.groups), old(v.freeBlocks), {})
  {
    hide *;
    OpenDirFacts(v, h);
    SoundFacts(v);
    OpenFacts(v, h);
    HeaderIs();
    NameFits(fname);
    BytesIs(v, h);
    ghost var bs, c, d, owner := v.geo.blockSize, DirBytes(v, h), v.D(), v.owner;
    PlaceInside(c, bs, last, o, fname);
    RecordBounds(c, bs, o);
    InsertedInside(c, bs, ino, fileType, fname, o);
    DirSolid(bs, d, h.ino);
    var start := o + UsedLen(last);
    NewRecordFits(bs, ino, SlackLen(last), fname, fileType);
    if last.inode != 0 {
      SolidLess(bs, d, h.ino, |c|, o + HEADER);
      PutHeader(v, h, last.(recLen := start - o), o);
      ConsistentIs(v);
      SoundFacts(v);
      BytesIs(v, h);
    } else {
      ChangedNot(bs, d, owner, v.live, h.ino);
    }
    SolidKept(bs, d, v.live, owner, v.D(), v.live, owner, h.ino, |c|);
    SolidLess(bs, v.D(), h.ino, |c|, start + SlackLen(last));
    RoomInside(bs, v.D(), h.ino, start, SlackLen(last), v.freeBlocks);
    ghost var d1 := v.D();
    PutDirRecord(v, h, DirEntry(ino, o + last.recLen - start, |fname|, fileType), fname, start);
    BytesIs(v, h);
    ChangedTwice(bs, d, owner, d1, owner, v.D(), v.owner, v.live, h.ino);
    NoneMissing({});
    StoredIs(v, h, d, owner, old(v.groups), old(v.freeBlocks), {});
  }

  lemma SolidLess(bs: nat, d: Disk, ino: nat, len: nat, less: nat)
    requires BlockSizeOk(bs) && Solid(bs, d, ino, len) && less <= len
    ensures Solid(bs, d, ino, less)
  {
  }

  /** create_dir_entry_ext2 where no record has room: the last header is rewritten as it is, then a block is added. */
  method StoreBehind(v: Volume, h: FileHandle, ino: nat, fileType: nat, fname: Name, last: DirRecords.Entry, o: nat)
    requires OpenDir(v, h) && 0 < ino < TWO32 && fileType < 0x100 && NameOk(fname)
    requires v.geo.blockSize > 0 && RoomFound(DirBytes(v, h), v.geo.blockSize, NeedLen(|fname|), false, last, o)
    requires |DirBytes(v, h)| + v.geo.blockSize < TWO32
    requires |WriteNeeds(v.geo.blockSize, v.D(), h.ino, |DirBytes(v, h)|, v.geo.blockSize)| <= v.freeBlocks
    modifies v`blocks, v`inodes, v`groups, v`blockBits, v`freeBlocks, v`used, v`owner, h`inode, h`it
    ensures v.Consistent() && Open(v, h)
    ensures DirBytes(v, h) == Inserted(old(DirBytes(v, h)), v.geo.blockSize, ino, fileType, fname)
    ensures Stored(v, h, old(v.D()), old(v.owner), old(v.groups), old(v.freeBlocks),
                   WriteNeeds(v.geo.blockSize, old(v.D()), h.ino, |old(DirBytes(v, h))|, v.geo.blockSize))
  {
    hide *;
    OpenDirFacts(v, h);
    SoundFacts(v);
    OpenFacts(v, h);
    HeaderIs();
    NameFits(fname);
    BytesIs(v, h);
    ghost var bs, c, d, owner := v.geo.blockSize, DirBytes(v, h), v.D(), v.owner;
    ghost var needs := WriteNeeds(bs, d, h.ino, |c|, bs);
    PlaceBehind(c, bs, last, o, fname);
    InsertedBehind(c, bs, ino, fileType, fname);
    DirSolid(bs, d, h.ino);
    var need, size := NeedLen(|fname|), h.inode.size;
    var start := NewStart(v.geo.blockSize, false, size == 0, last, o, need);
    NeedInBlock(bs, fname);
    NewRecordFits(bs, ino, bs, fname, fileType);
    if size > 0 {
      RecordBounds(c, bs, o);
      SolidLess(bs, d, h.ino, |c|, o + HEADER);
      HeaderRewrite(c, o);
      PutHeader(v, h, last.(recLen := start - o), o);
      ConsistentIs(v);
      SoundFacts(v);
      BytesIs(v, h);
    } else {
      ChangedNot(bs, d, owner, v.live, h.ino);
    }
    var end := NewEnd(v.geo.blockSize, false, last, o, start, need, size);
    NeedsKept(bs, d, v.D(), v.live, owner, h.ino, |c|, bs);
    RoomBehind(bs, v.D(), h.ino, start, v.freeBlocks);
    ghost var d1 := v.D();
    PutDirRecord(v, h, DirEntry(ino, end - start, |fname|, fileType), fname, start);
    BytesIs(v, h);
    ChangedTwice(bs, d, owner, d1, owner, v.D(), v.owner, v.live, h.ino);
    StoredIs(v, h, d, owner, old(v.groups), old(v.freeBlocks), needs);
  }

  lemma RoomBehind(bs: nat, d: Disk, ino: nat, o: nat, free: nat)
    requires BlockSizeOk(bs) && o % bs == 0 && o + bs < TWO32 && |WriteNeeds(bs, d, ino, o, bs)| <= free
    ensures Room(bs, d, ino, o, bs, free)
  {
  }

  lemma NeedInBlock(bs: nat, name: Name)
    requires BlockSizeOk(bs) && NameOk(name)
    ensures NeedLen(|name|) <= bs
  {
    NeedFitsBlock(name);
  }

  // ---- link counts ----

  /** The link count of file t moved by `delta`; all other link counts and all modes of live files are what they
      were. */
  ghost predicate LinksMoved(d: Disk, d': Disk, live: set<nat>, t: nat, delta: int) {
    && |d'.inodes| == |d.inodes|
    && forall i | i in live && i < |d.inodes| ::
         d'.inodes[i].mode == d.inodes[i].mode && d'.inodes[i].links
           == d.inodes[i].links + (if i == t then delta else 0)
  }

  /** Every live file but ino has the content it had. */
  ghost predicate OthersRead(bs: nat, d: Disk, d': Disk, live: set<nat>, ino: nat)
    requires BlockSizeOk(bs)
  {
    forall i | i in live && i != ino :: Content(bs, d', i) == Content(bs, d, i)
  }

  lemma ChangedReads(bs: nat, d: Disk, owner: map<nat, Pos>, d': Disk, owner': map<nat, Pos>, live: set<nat>, ino: nat)
    requires BlockSizeOk(bs) && Changed(bs, d, owner, d', owner', live, ino)
    ensures OthersRead(bs, d, d', live, ino) && LinksMoved(d, d', live, ino, 0)
    ensures OwnersGrow(owner, owner', ino) && Untouched(bs / 4, d, d', live, owner, ino)
    ensures ino < |d.inodes| == |d'.inodes| && forall i | 0 <= i < |d.inodes| && i != ino :: d'.inodes[i] == d.inodes[i]
  {
    hide Untouched, OwnersBut;
  }

  lemma NewLinks(bs: nat, d: Disk, d': Disk, live: set<nat>, owner: map<nat, Pos>, ino: nat, n: nat)
    requires BlockSizeOk(bs) && ino < |d.inodes|
    requires d' == Disk(d.blocks, d.inodes[ino := d.inodes[ino].(links := n)])
    requires TreeInv(bs / 4, d, live, owner) && ZeroTail(bs, d, live) && SizesOk(d, live)
      && SectorsOk(bs, d, live, owner)
    ensures SameSlots(d, d') && TreeInv(bs / 4, d', live, owner)
    ensures ZeroTail(bs, d', live) && SizesOk(d', live) && SectorsOk(bs, d', live, owner)
    ensures forall i :: Content(bs, d', i) == Content(bs, d, i)
    ensures LinksMoved(d, d', live, ino, n - d.inodes[ino].links)
    ensures |d'.inodes[ino].block| == |d.inodes[ino].block|
  {
    hide ByteAt, PosOk, At, BlockOf;
    assert forall i :: SizeOf(d', i) == SizeOf(d, i);
    assert SameSlots(d, d');
    SameSlotsTree(bs / 4, d, d', live, owner);
    SameSlotsAt(d, d');
    SameBytesOfSlots(bs, d, d');
    forall i
      ensures Content(bs, d', i) == Content(bs, d, i)
    {
      SameContent(bs, d, d', i);
    }
  }

  lemma SameBytesOfSlots(bs: nat, d: Disk, d': Disk)
    requires BlockSizeOk(bs) && SameSlots(d, d')
    ensures forall i, off: nat :: ByteAt(bs, d', i, off) == ByteAt(bs, d, i, off)
  {
    SameSlotsAt(d, d');
  }

  /** `i_links_count` changed in memory and written back. */
  method SetLinks(v: Volume, h: FileHandle, n: nat)
    requires v.Consistent() && Open(v, h)
    modifies v`inodes, h`inode
    ensures v.Consistent() && Open(v, h) && BlockSizeOk(v.geo.blockSize)
    ensures h.ino < |old(v.inodes)| && v.inodes == old(v.inodes)[h.ino := old(v.inodes[h.ino]).(links := n)]
    ensures SameSlots(old(v.D()), v.D()) && LinksMoved(old(v.D()), v.D(), v.live, h.ino, n - old(h.inode.links))
    ensures forall i :: Content(v.geo.blockSize, v.D(), i) == Content(v.geo.blockSize, old(v.D()), i)
  {
    hide *;
    ConsistentIs(v);
    SoundFacts(v);
    OpenFacts(v, h);
    ghost var d := v.D();
    h.inode := h.inode.(links := n);
    WriteInode(v, h);
    VolumeDisk(v);
    NewLinks(v.geo.blockSize, d, v.D(), v.live, v.owner, h.ino, n);
    CursorSameSlots(v.geo.blockSize, d, v.D(), h.ino, h.it);
    BlocksStill(v, d.blocks);
    SoundIntro(v);
    ConsistentIs(v);
    OpenIntro(v, h);
  }

  lemma BlocksStill(v: Volume, blocks: seq<Block>)
    requires v.blocks == blocks
    ensures |v.blocks| == |blocks|
  {
  }

  /** A handle on another file stays open when one file's link count changes. */
  lemma OpenSameSlots(v: Volume, g: FileHandle, d: Disk)
    requires v.Sound() && BlockSizeOk(v.geo.blockSize) && SameSlots(d, v.D())
    requires g.ino in v.live && g.ino < |v.inodes| && g.inode == v.inodes[g.ino]
    requires g.pbgdIndex == v.geo.InodeGroup(g.ino) < v.geo.Groups()
    requires CursorOk(v.geo.blockSize, d, g.ino, g.it)
    ensures Open(v, g)
  {
    CursorSameSlots(v.geo.blockSize, d, v.D(), g.ino, g.it);
    SoundFacts(v);
  }

  /** new_entry.file_type. */
  function FileType(mode: bv16): (t: nat)
    ensures t <= 2
  {
    if IsReg(mode) then 1 else if IsDir(mode) then 2 else 0
  }

  /** What a volume is at one moment: files and owners, descriptors, superblock counters and bitmaps. */
  datatype Snapshot = Snapshot(disk: Disk, live: set<nat>, owner: map<nat, Pos>, groups: seq<GroupDesc>,
                               freeBlocks: nat, blockBits: seq<Bits>, inodeBits: seq<Bits>, freeInodes: nat)

  ghost function Snap(v: Volume): Snapshot
    reads v
  {
    Snapshot(v.D(), v.live, v.owner, v.groups, v.freeBlocks, v.blockBits, v.inodeBits, v.freeInodes)
  }

  lemma SnapIs(v: Volume)
    ensures Snap(v) == Snapshot(v.D(), v.live, v.owner, v.groups, v.freeBlocks, v.blockBits, v.inodeBits, v.freeInodes)
  {
  }

  /** create_dir_entry_ext2 as a step: the directory holds one more record, whose bytes RecordMade gives and whose type
      is 1 for a mode with S_IFREG, 2 for one with S_IFDIR alone and 0 for all others; the named file has one more link,
      no other file changes, and exactly the blocks that were missing have been taken. */
  ghost predicate EntryMade(bs: nat, s: Snapshot, s': Snapshot, dir: nat, ino: nat, name: Name) {
    && BlockSizeOk(bs) && DirOk(Content(bs, s.disk, dir), bs)
    && ino < |s.disk.inodes|
    && Content(bs, s'.disk, dir) == Inserted(Content(bs, s.disk, dir), bs, ino, FileType(s.disk.inodes[ino].mode), name)
    && TypedRecord(bs, Content(bs, s.disk, dir), Content(bs, s'.disk, dir), ino, s.disk.inodes[ino].mode, name)
    && OthersRead(bs, s.disk, s'.disk, s.live, dir)
    && LinksMoved(s.disk, s'.disk, s.live, ino, 1)
    && (forall i | 0 <= i < |s.disk.inodes| && i != dir && i != ino :: s'.disk.inodes[i] == s.disk.inodes[i])
    && Untouched(bs / 4, s.disk, s'.disk, s.live, s.owner, dir)
    && OwnersGrow(s.owner, s'.owner, dir)
    && s'.freeBlocks + |InsertNeeds(bs, s.disk, dir, name)| == s.freeBlocks
    && s'.freeBlocks + |s'.owner| == s.freeBlocks + |s.owner|
    && (InsertNeeds(bs, s.disk, dir, name) == {} ==> s'.groups == s.groups && s'.owner == s.owner)
    && s'.live == s.live
  }

  ghost predicate TypedRecord(bs: nat, c: seq<byte>, c': seq<byte>, ino: nat, mode: bv16, name: Name) {
    RecordMade(bs, c, c', ino, if mode & 0x8000 != 0 then 1 else if mode & 0x4000 != 0 then 2 else 0, name)
  }

  lemma InsertedTyped(c: seq<byte>, bs: nat, ino: nat, mode: bv16, name: Name)
    requires bs == 1024 || bs == 2048
    requires DirOk(c, bs) && NameOk(name) && 0 < ino < TWO32
    ensures TypedRecord(bs, c, Inserted(c, bs, ino, FileType(mode), name), ino, mode, name)
  {
    InsertedBytes(c, bs, ino, FileType(mode), name);
    hide DirOk, Inserted, RecordMade;
  }

  lemma EntryFacts(v: Volume, hp: FileHandle, hn: FileHandle)
    requires OpenDir(v, hp) && Open(v, hn)
    ensures v.Consistent() && v.Sound() && BlockSizeOk(v.geo.blockSize)
      && TreeInv(v.geo.blockSize / 4, v.D(), v.live, v.owner)
    ensures Open(v, hp) && DirOk(DirBytes(v, hp), v.geo.blockSize)
      && DirBytes(v, hp) == Content(v.geo.blockSize, v.D(), hp.ino)
    ensures hn.ino in v.live && 0 < hn.ino < TWO32 && hn.ino < |v.inodes| && hn.inode == v.inodes[hn.ino]
    ensures hn.pbgdIndex == v.geo.InodeGroup(hn.ino) < v.geo.Groups()
    ensures CursorOk(v.geo.blockSize, v.D(), hn.ino, hn.it) && v.D().inodes == v.inodes
  {
    hide *;
    OpenDirFacts(v, hp);
    SoundFacts(v);
    OpenFacts(v, hn);
    InodesAreSmall(v.geo, hn.ino);
    BytesIs(v, hp);
  }

  /** The part of create_dir_entry_ext2 that puts the record into the directory. */
  method StoreEntry(v: Volume, h: FileHandle, ino: nat, fileType: nat, fname: Name)
    requires OpenDir(v, h) && 0 < ino < TWO32 && fileType < 0x100
    requires CanInsert(v.geo.blockSize, v.D(), h.ino, fname, v.freeBlocks)
    modifies v`blocks, v`inodes, v`groups, v`blockBits, v`freeBlocks, v`used, v`owner, h`inode, h`it
    ensures v.Consistent() && Open(v, h) && BlockSizeOk(v.geo.blockSize)
    ensures DirOk(Content(v.geo.blockSize, old(v.D()), h.ino), v.geo.blockSize)
    ensures Content(v.geo.blockSize, v.D(), h.ino)
         == Inserted(Content(v.geo.blockSize, old(v.D()), h.ino), v.geo.blockSize, ino, fileType, fname)
    ensures Stored(v, h, old(v.D()), old(v.owner), old(v.groups), old(v.freeBlocks),
                   InsertNeeds(v.geo.blockSize, old(v.D()), h.ino, fname))
    ensures h.inode.links == old(h.inode.links)
  {
    hide *;
    OpenDirFacts(v, h);
    OpenFacts(v, h);
    BytesIs(v, h);
    ghost var bs, c, d, owner := v.geo.blockSize, DirBytes(v, h), v.D(), v.owner;
    CanInsertFacts(bs, d, h.ino, fname, v.freeBlocks);
    var room, last, o := FindRoom(v, h, NeedLen(|fname|));
    BytesIs(v, h);
    RoomFoundIs(c, bs, NeedLen(|fname|), room, last, o);
    if room {
      StoreInside(v, h, ino, fileType, fname, last, o);
    } else {
      StoreBehind(v, h, ino, fileType, fname, last, o);
    }
    BytesIs(v, h);
    ConsistentIs(v);
    OpenFacts(v, h);
    StoredFacts(v, h, d, owner, old(v.groups), old(v.freeBlocks), InsertNeeds(bs, d, h.ino, fname));
    ChangedLinks(bs, d, owner, v.D(), v.owner, v.live, h.ino);
  }

  lemma ChangedLinks(bs: nat, d: Disk, owner: map<nat, Pos>, d': Disk, owner': map<nat, Pos>, live: set<nat>, ino: nat)
    requires BlockSizeOk(bs) && Changed(bs, d, owner, d', owner', live, ino)
    ensures ino < |d.inodes| == |d'.inodes| && d'.inodes[ino].links == d.inodes[ino].links
  {
  }

  /** create_dir_entry_ext2: the name leads to the inode of hn, whose link count grows by one. */
  method CreateDirEntry(v: Volume, hp: FileHandle, hn: FileHandle, fname: Name) returns (ok: bool)
    requires OpenDir(v, hp) && Open(v, hn) && (hp == hn || hp.ino != hn.ino)
    requires |fname| <= 255 ==> CanInsert(v.geo.blockSize, v.D(), hp.ino, fname, v.freeBlocks)
    requires hn.inode.links < 0xFFFF
    modifies v`blocks, v`inodes, v`groups, v`blockBits, v`freeBlocks, v`used, v`owner, hp`inode, hp`it, hn`inode, hn`it
    ensures ok <==> |fname| <= 255
    ensures !ok ==> unchanged(v) && unchanged(hp) && unchanged(hn)
    ensures OpenDir(v, hp) && Open(v, hn)
    ensures v.live == old(v.live)
    ensures ok ==> EntryMade(v.geo.blockSize, old(Snap(v)), Snap(v), hp.ino, hn.ino, fname)
  {
    hide *;
    if |fname| > 255 {
      return false;
    }
    EntryFacts(v, hp, hn);
    FreePlusOwned(v);
    SnapIs(v);
    ghost var bs, c, d, owner := v.geo.blockSize, DirBytes(v, hp), v.D(), v.owner;
    ghost var needs := InsertNeeds(bs, d, hp.ino, fname);
    CanInsertFacts(bs, d, hp.ino, fname, v.freeBlocks);
    StoreEntry(v, hp, hn.ino, FileType(hn.inode.mode), fname);
    StoredFacts(v, hp, d, owner, old(v.groups), old(v.freeBlocks), needs);
    CountEntry(v, hp, hn, d, owner);
    ConsistentIs(v);
    FreePlusOwned(v);
    InsertedTyped(c, bs, hn.ino, old(hn.inode.mode), fname);
    EntryMadeIntro(bs, old(Snap(v)), Snap(v), hp.ino, hn.ino, fname) by { SnapIs(v); }
    InsertedOk(c, bs, hn.ino, FileType(old(hn.inode.mode)), fname);
    BytesIs(v, hp);
    OpenDirIntro(v, hp, v.D());
    ok := true;
  }

  /** `++filp_new->pinode->i_links_count; write_inode_ext2(filp_new)` after the record has been stored. */
  method CountEntry(v: Volume, hp: FileHandle, hn: FileHandle, ghost d: Disk, ghost owner: map<nat, Pos>)
    requires hn.inode.links < 0xFFFF
    requires v.Consistent() && Open(v, hp) && BlockSizeOk(v.geo.blockSize) && (hp == hn || hp.ino != hn.ino)
    requires Changed(v.geo.blockSize, d, owner, v.D(), v.owner, v.live, hp.ino)
    requires TreeInv(v.geo.blockSize / 4, d, v.live, owner)
    requires hp != hn ==>
      && hn.ino in v.live && hn.ino < |d.inodes| && hn.inode == d.inodes[hn.ino]
        && CursorOk(v.geo.blockSize, d, hn.ino, hn.it)
      && hn.pbgdIndex == v.geo.InodeGroup(hn.ino) < v.geo.Groups()
    modifies v`inodes, hn`inode
    ensures v.Consistent() && Open(v, hp) && Open(v, hn)
    ensures Content(v.geo.blockSize, v.D(), hp.ino) == Content(v.geo.blockSize, old(v.D()), hp.ino)
    ensures OthersRead(v.geo.blockSize, d, v.D(), v.live, hp.ino) && LinksMoved(d, v.D(), v.live, hn.ino, 1)
    ensures OwnersGrow(owner, v.owner, hp.ino)
    ensures forall i | 0 <= i < |d.inodes| && i != hp.ino && i != hn.ino :: v.D().inodes[i] == d.inodes[i]
    ensures Untouched(v.geo.blockSize / 4, d, v.D(), v.live, owner, hp.ino)
  {
    hide *;
    ghost var d1, bs := v.D(), v.geo.blockSize;
    ConsistentIs(v);
    ChangedReads(bs, d, owner, d1, v.owner, v.live, hp.ino);
    VolumeDisk(v);
    if hn != hp { StaysOpen(v, hn, d, owner, hp.ino); }
    OpenFacts(v, hp);
    SetLinks(v, hn, (hn.inode.links + 1) % 0x1_0000);
    ConsistentIs(v);
    VolumeDisk(v);
    if hn != hp { OpenSameSlots(v, hp, d1); }
    LinksThen(bs, d, d1, v.D(), v.live, hp.ino, hn.ino, 1);
    UntouchedSameSlots(bs / 4, d, d1, v.D(), v.live, owner, hp.ino);
  }

  lemma EntryMadeIntro(bs: nat, s: Snapshot, s': Snapshot, dir: nat, ino: nat, name: Name)
    requires BlockSizeOk(bs) && DirOk(Content(bs, s.disk, dir), bs) && ino < |s.disk.inodes|
    requires Content(bs, s'.disk, dir) == Inserted(Content(bs, s.disk, dir), bs, ino,
                                                   FileType(s.disk.inodes[ino].mode), name)
    requires TypedRecord(bs, Content(bs, s.disk, dir), Content(bs, s'.disk, dir), ino, s.disk.inodes[ino].mode, name)
    requires OthersRead(bs, s.disk, s'.disk, s.live, dir) && LinksMoved(s.disk, s'.disk, s.live, ino, 1)
    requires LinksMoved(s.disk, s'.disk, s.live, ino, 1) && forall i | 0 <= i < |s.disk.inodes| && i != dir
      && i != ino :: s'.disk.inodes[i] == s.disk.inodes[i]
    requires Untouched(bs / 4, s.disk, s'.disk, s.live, s.owner, dir)
    requires OwnersGrow(s.owner, s'.owner, dir) && s'.live == s.live
    requires s'.freeBlocks + |InsertNeeds(bs, s.disk, dir, name)| == s.freeBlocks
    requires s'.freeBlocks + |s'.owner| == s.freeBlocks + |s.owner|
    requires InsertNeeds(bs, s.disk, dir, name) == {} ==> s'.groups == s.groups && s'.owner == s.owner
    ensures EntryMade(bs, s, s', dir, ino, name)
  {
  }

  lemma InodesAreSmall(geo: Geometry, ino: nat)
    requires geo.Ok() && geo.IsInode(ino)
    ensures 0 < ino < TWO32
  {
  }

  lemma RoomFoundIs(c: seq<byte>, bs: nat, need: nat, room: bool, last: DirRecords.Entry, o: nat)
    requires bs > 0 && DirOk(c, bs) && RoomFound(c, bs, need, room, last, o) && Tiled(c, bs, 0, |c|)
    ensures room <==> FirstRoom(c, bs, 0, need) < |c|
  {
  }

  lemma StoredFacts(v: Volume, h: FileHandle, d: Disk, owner: map<nat, Pos>, groups: seq<GroupDesc>, free: nat,
                    needs: set<Pos>)
    requires Stored(v, h, d, owner, groups, free, needs)
    ensures BlockSizeOk(v.geo.blockSize) && Changed(v.geo.blockSize, d, owner, v.D(), v.owner, v.live, h.ino)
    ensures v.freeBlocks + |needs| == free
    ensures needs == {} ==> v.groups == groups && v.owner == owner
  {
  }

  /** Writing to one file and then changing one link count. */
  lemma LinksThen(bs: nat, d0: Disk, d1: Disk, d2: Disk, live: set<nat>, ino: nat, t: nat, delta: int)
    requires BlockSizeOk(bs) && OthersRead(bs, d0, d1, live, ino) && LinksMoved(d0, d1, live, ino, 0)
    requires LinksMoved(d1, d2, live, t, delta) && forall i :: Content(bs, d2, i) == Content(bs, d1, i)
    ensures OthersRead(bs, d0, d2, live, ino) && LinksMoved(d0, d2, live, t, delta)
  {
  }
}
