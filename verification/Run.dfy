/** Whole runs on one volume: any sequence of commands, each opening its files by number, keeps everything the volume
    promises. */
module Runs {
  import opened Bytes
  import opened Bitmap
  import opened Layout
  import opened Accounting
  import opened Tree
  import opened Contents
  import opened Volumes
  import opened FileHandles
  import opened Grafting
  import opened FileIO
  import opened NewInodes
  import opened Spaces
  import opened DirRecords
  import opened DirStores
  import opened Directories
  import opened Unlinking
  import opened Names
  import opened Operations
  import opened Namespace
  import opened Conservation

  // ---- the guard of an entry ----

  /** Whether a name can be entered: the blocks its record is short of, and whether the directory may grow that far. */
  method EntrySpace(v: Volume, h: FileHandle, name: Name) returns (fits: bool, n: nat)
    requires OpenDir(v, h) && NameOk(name)
    modifies v`inodes, h`it
    ensures OpenDir(v, h) && v.inodes == old(v.inodes) && v.D() == old(v.D())
    ensures fits ==> EntryNeeds(v.geo.blockSize, v.D(), h.ino, name, n)
    ensures !fits ==> !CanGrow(v.geo.blockSize, v.D(), h.ino, name)
  {
    hide *;
    OpenDirFacts(v, h);
    BytesIs(v, h);
    ghost var c := DirBytes(v, h);
    DirOkFacts(c, v.geo.blockSize);
    var room, last, o := FindRoom(v, h, NeedLen(|name|));
    OpenDirFacts(v, h);
    BytesIs(v, h);
    RoomFoundIs(c, v.geo.blockSize, NeedLen(|name|), room, last, o);
    FirstRoomIn(c, v.geo.blockSize, 0, NeedLen(|name|));
    n := 0;
    if room {
      fits := true;
      EntryNeedsRoom(v.geo.blockSize, v.D(), h.ino, name);
    } else {
      fits := h.inode.size + v.geo.blockSize < 0x1_0000_0000;
      EntryNeedsBlock(v.geo.blockSize, v.D(), h.ino, name);
      TwoTo32();
      if fits {
        var ps := PlacesMissing(v, h, h.inode.size);
        n := |ps|;
        BytesIs(v, h);
        OpenDirIntro(v, h, v.D());
      }
    }
  }

  ghost predicate EntryNeeds(bs: nat, d: Disk, dir: nat, name: Name, n: nat) {
    BlockSizeOk(bs) && DirOk(Content(bs, d, dir), bs) && n == |InsertNeeds(bs, d, dir, name)|
      && CanGrow(bs, d, dir, name)
  }

  ghost predicate CanGrow(bs: nat, d: Disk, dir: nat, name: Name) {
    && BlockSizeOk(bs) && DirOk(Content(bs, d, dir), bs)
    && (FirstRoom(Content(bs, d, dir), bs, 0, NeedLen(|name|)) == |Content(bs, d, dir)|
        ==> |Content(bs, d, dir)| + bs < TWO32)
  }

  lemma EntryNeedsRoom(bs: nat, d: Disk, dir: nat, name: Name)
    requires BlockSizeOk(bs) && DirOk(Content(bs, d, dir), bs)
      && Tiled(Content(bs, d, dir), bs, 0, |Content(bs, d, dir)|)
    requires FirstRoom(Content(bs, d, dir), bs, 0, NeedLen(|name|)) < |Content(bs, d, dir)|
    ensures EntryNeeds(bs, d, dir, name, 0)
  {
    hide DirOk, Content, FirstRoom, NeedLen;
  }

  lemma EntryNeedsBlock(bs: nat, d: Disk, dir: nat, name: Name)
    requires BlockSizeOk(bs) && DirOk(Content(bs, d, dir), bs)
      && Tiled(Content(bs, d, dir), bs, 0, |Content(bs, d, dir)|)
    requires FirstRoom(Content(bs, d, dir), bs, 0, NeedLen(|name|)) == |Content(bs, d, dir)|
    ensures CanGrow(bs, d, dir, name) <==> |Content(bs, d, dir)| + bs < TWO32
    ensures CanGrow(bs, d, dir, name) ==>
      EntryNeeds(bs, d, dir, name, |Missing(d, PathSet(bs / 4, dir, |Content(bs, d, dir)| / bs))|)
  {
    hide Content, FirstRoom, NeedLen, Tiled, Distinct, PathSet, WritePlaces;
    OneBlockPlaces(bs, dir, |Content(bs, d, dir)|, bs);
  }

  /** CanInsert, in the words of the guards a command makes. */
  lemma CanInsertGuards(bs: nat, d: Disk, dir: nat, name: Name, free: nat, n: nat)
    requires EntryNeeds(bs, d, dir, name, n)
    ensures BlockSizeOk(bs) && DirOk(Content(bs, d, dir), bs)
    ensures CanInsert(bs, d, dir, name, free) <==> NameOk(name) && name !in DirMap(Content(bs, d, dir), bs) && n <= free
  {
    hide DirOk, Content, FirstRoom, NeedLen, DirMap, InsertNeeds, NameOk;
  }

  lemma CanInsertNot(bs: nat, d: Disk, dir: nat, name: Name, free: nat)
    requires CanInsert(bs, d, dir, name, free)
    ensures CanGrow(bs, d, dir, name) && NameOk(name) && BlockSizeOk(bs) && DirOk(Content(bs, d, dir), bs)
    ensures name !in DirMap(Content(bs, d, dir), bs)
  {
    hide DirOk, Content, FirstRoom, NeedLen, DirMap, InsertNeeds, NameOk;
  }

  // ---- commands ----

  /** What a user asks for; files and directories are named by inode number, as the handles that open them are. */
  datatype Command =
    | NewFile(dir: nat, name: Name, mode: bv16)
    | NewDirectory(dir: nat, name: Name, mode: bv16)
    | DropName(dir: nat, name: Name)
    | DropDirectory(dir: nat, name: Name)
    | Put(ino: nat, offset: nat, data: seq<byte>)

  /** A command takes effect exactly when this holds; otherwise it is skipped. */
  ghost predicate Ready(geo: Geometry, s: Snapshot, table: Table, cmd: Command) {
    && geo.Ok() && BlockSizeOk(geo.blockSize)
    && match cmd
       case NewFile(dir, name, _) =>
         && dir in table && AnyFree(InodeSpace(geo), s.live)
         && (|name| <= 255 ==> CanInsert(geo.blockSize, s.disk, dir, name, s.freeBlocks))
       case NewDirectory(dir, name, _) =>
         && dir in table && AnyFree(InodeSpace(geo), s.live) && dir < |s.disk.inodes|
           && s.disk.inodes[dir].links < 0xFFFF
         && (|name| <= 255 ==> s.freeBlocks >= 1 && CanInsert(geo.blockSize, s.disk, dir, name, s.freeBlocks - 1))
       case DropName(dir, name) => OwnName(table, dir, name)
       case DropDirectory(dir, name) =>
         && OwnName(table, dir, name) && table[dir][name] in table && table[dir][name] != dir
         && LastAt(Content(geo.blockSize, s.disk, table[dir][name]), geo.blockSize, 12)
       case Put(ino, offset, data) =>
         && ino in s.live && ino !in table && offset + |data| < TWO32
         && |WriteNeeds(geo.blockSize, s.disk, ino, offset, |data|)| <= s.freeBlocks
  }

  /** The operation that a command is, for some free inode where it takes one. */
  ghost predicate Does(cmd: Command, op: Operation) {
    match cmd
    case NewFile(dir, name, mode) =>
      if |name| <= 255 then op.Create? && op == Create(dir, name, op.ino, mode) else op.Strand? && op.mode == mode
    case NewDirectory(dir, name, mode) =>
      if |name| <= 255 then op.MakeDirectory? && op == MakeDirectory(dir, name, op.ino, DirectoryMode(mode))
      else op.Strand? && op.mode == DirectoryMode(mode)
    case DropName(dir, name) => op == RemoveName(dir, name)
    case DropDirectory(dir, name) => op == RemoveDirectory(dir, name)
    case Put(ino, _, _) => op == Write(ino)
  }

  /** The outcome of one command: a transition of the namespace, or nothing. */
  ghost predicate Outcome(geo: Geometry, cmd: Command, s: Snapshot, table: Table, s': Snapshot, table': Table,
                          done: bool, op: Operation) {
    && (done <==> Ready(geo, s, table, cmd))
    && (done ==> Does(cmd, op) && Happens(geo.blockSize, op, s, table, s', table') && Effect(geo, cmd, s, s', op))
    && (!done ==> s' == s && table' == table)
  }

  /** What the transition leaves open: which inode a new file or directory is given, the first free one from the
      directory's group on; what a file reads after a write, its old content with the new bytes laid over it; and what
      becomes of the groups' directory counts. */
  ghost predicate Effect(geo: Geometry, cmd: Command, s: Snapshot, s': Snapshot, op: Operation) {
    match cmd
    case NewFile(dir, _, mode) =>
      Placed(geo, s, s', op, dir, IsDir(mode))
    case NewDirectory(dir, _, _) =>
      Placed(geo, s, s', op, dir, true)
    case DropName(_, _) =>
      DirCounts(s'.groups) == DirCounts(s.groups)
    case DropDirectory(dir, _) =>
      DirCountedDown(geo, DirCounts(s.groups), DirCounts(s'.groups), dir, true)
    case Put(ino, offset, data) =>
      && DirCounts(s'.groups) == DirCounts(s.groups) && BlockSizeOk(geo.blockSize)
      && Content(geo.blockSize, s'.disk, ino) == Overlay(Content(geo.blockSize, s.disk, ino), offset, data)
  }

  ghost predicate Placed(geo: Geometry, s: Snapshot, s': Snapshot, op: Operation, dir: nat, isDir: bool) {
    && (op.Create? || op.MakeDirectory? || op.Strand?)
    && InodeChosen(geo, s.live, dir, op.ino)
    && DirCountedUp(geo, DirCounts(s.groups), DirCounts(s'.groups), op.ino, isDir)
  }

  lemma DirCountsAre(v: Volume)
    requires v.Consistent()
    ensures v.dirCounts == DirCounts(v.groups) == DirCounts(Snap(v).groups)
  {
    hide *;
    ConsistentIs(v);
    SoundFacts(v);
    SnapIs(v);
  }

  lemma DirCountsNow(v: Volume, table: Table)
    requires Mounted(v, table)
    ensures v.dirCounts == DirCounts(v.groups) == DirCounts(Snap(v).groups)
  {
    hide *;
    MountedFacts(v, table);
    DirCountsAre(v);
  }

  lemma ReadsAs(geo: Geometry, ino: nat, offset: nat, data: seq<byte>, s: Snapshot, s': Snapshot, op: Operation)
    requires BlockSizeOk(geo.blockSize)
    requires Content(geo.blockSize, s'.disk, ino) == Overlay(Content(geo.blockSize, s.disk, ino), offset, data)
    requires DirCounts(s'.groups) == DirCounts(s.groups)
    ensures Effect(geo, Put(ino, offset, data), s, s', op)
  {
  }

  lemma ChoosesInode(geo: Geometry, cmd: Command, s: Snapshot, s': Snapshot, op: Operation)
    requires (cmd.NewFile? || cmd.NewDirectory?) && (op.Create? || op.MakeDirectory? || op.Strand?)
    requires InodeChosen(geo, s.live, cmd.dir, op.ino)
    requires DirCountedUp(geo, DirCounts(s.groups), DirCounts(s'.groups), op.ino, cmd.NewDirectory? || IsDir(cmd.mode))
    ensures Effect(geo, cmd, s, s', op)
  {
    hide InodeChosen, DirCountedUp, DirCounts;
  }

  lemma TakesAway(geo: Geometry, cmd: Command, s: Snapshot, s': Snapshot, op: Operation)
    requires cmd.DropName? || cmd.DropDirectory?
    requires if cmd.DropName? then DirCounts(s'.groups) == DirCounts(s.groups)
      else DirCountedDown(geo, DirCounts(s.groups), DirCounts(s'.groups), cmd.dir, true)
    ensures Effect(geo, cmd, s, s', op)
  {
  }

  lemma Done(geo: Geometry, cmd: Command, s: Snapshot, table: Table, s': Snapshot, table': Table, op: Operation)
    requires Ready(geo, s, table, cmd) && Does(cmd, op) && Happens(geo.blockSize, op, s, table, s', table')
      && Effect(geo, cmd, s, s', op)
    ensures Outcome(geo, cmd, s, table, s', table', true, op)
  {
  }

  lemma Skipped(geo: Geometry, cmd: Command, s: Snapshot, table: Table, op: Operation)
    requires !Ready(geo, s, table, cmd)
    ensures Outcome(geo, cmd, s, table, s, table, false, op)
  {
  }

  lemma ReadyNewFile(geo: Geometry, s: Snapshot, table: Table, dir: nat, name: Name, mode: bv16)
    requires geo.Ok() && BlockSizeOk(geo.blockSize)
    ensures Ready(geo, s, table, NewFile(dir, name, mode)) <==>
      && dir in table && AnyFree(InodeSpace(geo), s.live)
      && (|name| <= 255 ==> CanInsert(geo.blockSize, s.disk, dir, name, s.freeBlocks))
  {
  }

  lemma ReadyNewDirectory(geo: Geometry, s: Snapshot, table: Table, dir: nat, name: Name, mode: bv16)
    requires geo.Ok() && BlockSizeOk(geo.blockSize)
    ensures Ready(geo, s, table, NewDirectory(dir, name, mode)) <==>
      && dir in table && AnyFree(InodeSpace(geo), s.live) && dir < |s.disk.inodes| && s.disk.inodes[dir].links < 0xFFFF
      && (|name| <= 255 ==> s.freeBlocks >= 1 && CanInsert(geo.blockSize, s.disk, dir, name, s.freeBlocks - 1))
  {
  }

  lemma ReadyDrops(geo: Geometry, s: Snapshot, table: Table, dir: nat, name: Name)
    requires geo.Ok() && BlockSizeOk(geo.blockSize)
    ensures Ready(geo, s, table, DropName(dir, name)) <==> OwnName(table, dir, name)
    ensures Ready(geo, s, table, DropDirectory(dir, name)) <==>
      && OwnName(table, dir, name) && dir in table && name in table[dir] && table[dir][name] in table
        && table[dir][name] != dir
      && LastAt(Content(geo.blockSize, s.disk, table[dir][name]), geo.blockSize, 12)
  {
  }

  lemma ReadyPut(geo: Geometry, s: Snapshot, table: Table, ino: nat, offset: nat, data: seq<byte>)
    requires geo.Ok() && BlockSizeOk(geo.blockSize)
    ensures Ready(geo, s, table, Put(ino, offset, data)) <==>
      && ino in s.live && ino !in table && offset + |data| < TWO32
      && |WriteNeeds(geo.blockSize, s.disk, ino, offset, |data|)| <= s.freeBlocks
  {
  }

  /** What the transitions do to the table. */
  lemma TableOf(bs: nat, op: Operation, s: Snapshot, names: Table, s': Snapshot, names': Table)
    requires Happens(bs, op, s, names, s', names')
    ensures match op
      case Create(dir, name, ino, _) => dir in names && names' == Adding(names, dir, name, ino)
      case MakeDirectory(dir, name, ino, _) => dir in names && dir != ino
        && names' == WithDirectory(names, dir, name, ino)
      case Strand(_, _) => names' == names
      case RemoveName(dir, name) => dir in names && names' == Removing(names, dir, name)
      case RemoveDirectory(dir, name) =>
        && dir in names && name in names[dir] && dir in names - {names[dir][name]}
        && names' == Removing(names - {names[dir][name]}, dir, name)
      case Write(_) => names' == names
  {
    hide Created, MadeDirectory, Allocated, Unlinked, RemovedDirectory, OnlyContent, Adding, Removing, WithDirectory;
  }

  /** Opens a directory of the table by its number. */
  method OpenDirectory(v: Volume, dir: nat, ghost table: Table) returns (h: FileHandle)
    requires Mounted(v, table) && dir in table
    ensures fresh(h) && h.ino == dir && OpenDir(v, h) && Open(v, h) && Mounted(v, table)
    ensures BlockSizeOk(v.geo.blockSize) && v.geo.blockSize > 0
    ensures DirOk(Content(v.geo.blockSize, v.D(), dir), v.geo.blockSize)
    ensures DirMap(Content(v.geo.blockSize, v.D(), dir), v.geo.blockSize) == table[dir]
    ensures dir < |v.D().inodes| && h.inode.links == v.D().inodes[dir].links
  {
    hide *;
    MountedFacts(v, table);
    NamesFacts(v.geo.blockSize, v.D(), v.live, table);
    h := new FileHandle();
    ReadInode(v, h, dir);
    DirectoryOpen(v, h, table);
    OpenFacts(v, h);
  }

  /** The guard both creating commands make: the name can be entered, and at least `spare` blocks are left then. */
  method NameFitsIn(v: Volume, h: FileHandle, name: Name, spare: nat, table: Table) returns (fits: bool)
    requires Mounted(v, table) && OpenDir(v, h) && h.ino in table && Open(v, h)
    modifies v`inodes, h`it
    ensures Mounted(v, table) && Open(v, h) && v.inodes == old(v.inodes) && Snap(v) == old(Snap(v))
    ensures fits <==> v.freeBlocks >= spare && CanInsert(v.geo.blockSize, v.D(), h.ino, name, v.freeBlocks - spare)
  {
    hide *;
    MountedFacts(v, table);
    DirectoryOpen(v, h, table);
    if v.freeBlocks < spare {
      return false;
    }
    ghost var d, bs, free := v.D(), v.geo.blockSize, v.freeBlocks - spare;
    if CanInsert(bs, d, h.ino, name, free) { CanInsertNot(bs, d, h.ino, name, free); }
    if !NameOk(name) || name in table[h.ino] {
      return false;
    }
    var room, n := EntrySpace(v, h, name);
    SnapIs(v);
    MountedIs(v, table);
    OpenDirOpen(v, h);
    if room { CanInsertGuards(bs, d, h.ino, name, free, n); }
    fits := room && n + spare <= v.freeBlocks;
  }

  method DoNewFile(v: Volume, table: Table, dir: nat, name: Name, mode: bv16)
      returns (table': Table, ghost done: bool, ghost op: Operation)
    requires Mounted(v, table)
    modifies v
    ensures Mounted(v, table')
    ensures Outcome(v.geo, NewFile(dir, name, mode), old(Snap(v)), table, Snap(v), table', done, op)
  {
    hide *;
    ghost var s, cmd := Snap(v), NewFile(dir, name, mode);
    table', done, op := table, false, Strand(0, mode);
    MountedFacts(v, table);
    DirCountsAre(v);
    OkBasics(v.geo);
    ReadyNewFile(v.geo, s, table, dir, name, mode);
    if dir !in table {
      Skipped(v.geo, cmd, s, table, op);
      return;
    }
    var hp := OpenDirectory(v, dir, table);
    var hn := new FileHandle();
    if |name| <= 255 {
      var fits := NameFitsIn(v, hp, name, 0, table);
      SnapIs(v);
      if !fits {
        Skipped(v.geo, cmd, s, table, op);
        return;
      }
      CanInsertNot(v.geo.blockSize, v.D(), dir, name, v.freeBlocks);
      NewNameIs(table, dir, name);
    }
    var ok;
    ghost var names;
    ok, names := CreateFile(v, hp, hn, name, mode, table);
    DoesNewFile(dir, name, mode, hn.ino);
    if ok {
      op := Create(dir, name, hn.ino, mode);
      TableOf(v.geo.blockSize, op, s, table, Snap(v), names);
      table', done := Adding(table, dir, name, hn.ino), true;
      DirCountsNow(v, table');
      ChoosesInode(v.geo, cmd, s, Snap(v), op);
      Done(v.geo, cmd, s, table, Snap(v), table', op);
    } else if AnyFree(InodeSpace(v.geo), s.live) {
      op, done := Strand(hn.ino, mode), true;
      DirCountsNow(v, table');
      ChoosesInode(v.geo, cmd, s, Snap(v), op);
      Done(v.geo, cmd, s, table, Snap(v), table', op);
    } else {
      SnapIs(v);
      Skipped(v.geo, cmd, s, table, op);
    }
  }

  lemma DoesNewFile(dir: nat, name: Name, mode: bv16, ino: nat)
    ensures |name| <= 255 ==> Does(NewFile(dir, name, mode), Create(dir, name, ino, mode))
    ensures |name| > 255 ==> Does(NewFile(dir, name, mode), Strand(ino, mode))
  {
  }

  method DoNewDirectory(v: Volume, table: Table, dir: nat, name: Name, mode: bv16)
    returns (table': Table, ghost done: bool, ghost op: Operation)
    requires Mounted(v, table)
    modifies v
    ensures Mounted(v, table')
    ensures Outcome(v.geo, NewDirectory(dir, name, mode), old(Snap(v)), table, Snap(v), table', done, op)
  {
    hide *;
    ghost var s, cmd := Snap(v), NewDirectory(dir, name, mode);
    table', done, op := table, false, Strand(0, mode);
    MountedFacts(v, table);
    DirCountsAre(v);
    OkBasics(v.geo);
    ReadyNewDirectory(v.geo, s, table, dir, name, mode);
    if dir !in table {
      Skipped(v.geo, cmd, s, table, op);
      return;
    }
    var hp := OpenDirectory(v, dir, table);
    if hp.inode.links >= 0xFFFF {
      Skipped(v.geo, cmd, s, table, op);
      return;
    }
    var hn := new FileHandle();
    if |name| <= 255 {
      var fits := NameFitsIn(v, hp, name, 1, table);
      SnapIs(v);
      if !fits {
        Skipped(v.geo, cmd, s, table, op);
        return;
      }
      CanInsertNot(v.geo.blockSize, v.D(), dir, name, v.freeBlocks - 1);
      CanInsertMore(v.geo.blockSize, v.D(), dir, name, v.freeBlocks - 1, v.freeBlocks);
      NewNameIs(table, dir, name);
    }
    var ok;
    ghost var names;
    ok, names := CreateDirectory(v, hp, hn, name, mode, table);
    DoesNewDirectory(dir, name, mode, hn.ino);
    if ok {
      op := MakeDirectory(dir, name, hn.ino, DirectoryMode(mode));
      TableOf(v.geo.blockSize, op, s, table, Snap(v), names);
      table', done := WithDirectory(table, dir, name, hn.ino), true;
      DirCountsNow(v, table');
      ChoosesInode(v.geo, cmd, s, Snap(v), op);
      Done(v.geo, cmd, s, table, Snap(v), table', op);
    } else if AnyFree(InodeSpace(v.geo), s.live) {
      op, done := Strand(hn.ino, DirectoryMode(mode)), true;
      DirCountsNow(v, table');
      ChoosesInode(v.geo, cmd, s, Snap(v), op);
      Done(v.geo, cmd, s, table, Snap(v), table', op);
    } else {
      SnapIs(v);
      Skipped(v.geo, cmd, s, table, op);
    }
  }

  lemma DoesNewDirectory(dir: nat, name: Name, mode: bv16, ino: nat)
    ensures |name| <= 255 ==> Does(NewDirectory(dir, name, mode), MakeDirectory(dir, name, ino, DirectoryMode(mode)))
    ensures |name| > 255 ==> Does(NewDirectory(dir, name, mode), Strand(ino, DirectoryMode(mode)))
  {
  }

  lemma CanInsertMore(bs: nat, d: Disk, dir: nat, name: Name, free: nat, free': nat)
    requires CanInsert(bs, d, dir, name, free) && free <= free'
    ensures CanInsert(bs, d, dir, name, free')
  {
    hide DirOk, Content, FirstRoom, NeedLen, DirMap, InsertNeeds, NameOk;
  }

  method DoDropName(v: Volume, table: Table, dir: nat, name: Name)
      returns (table': Table, ghost done: bool, ghost op: Operation)
    requires Mounted(v, table)
    modifies v
    ensures Mounted(v, table')
    ensures Outcome(v.geo, DropName(dir, name), old(Snap(v)), table, Snap(v), table', done, op)
  {
    hide *;
    ghost var s, cmd := Snap(v), DropName(dir, name);
    table', done, op := table, false, RemoveName(dir, name);
    MountedFacts(v, table);
    DirCountsAre(v);
    ReadyDrops(v.geo, s, table, dir, name);
    OwnNameIs(table, dir, name);
    if dir !in table || name == [] || name == DOT || name == DOTDOT {
      NoEmptyName(v, table, dir, name);
      Skipped(v.geo, cmd, s, table, op);
      return;
    }
    var h := OpenDirectory(v, dir, table);
    var ok;
    ghost var names;
    ok, names := UnlinkFile(v, h, name, table);
    if ok {
      TableOf(v.geo.blockSize, op, s, table, Snap(v), names);
      table', done := Removing(table, dir, name), true;
      DoesDrop(dir, name);
      DirCountsNow(v, table');
      TakesAway(v.geo, cmd, s, Snap(v), op);
      Done(v.geo, cmd, s, table, Snap(v), table', op);
    } else {
      Skipped(v.geo, cmd, s, table, op);
    }
  }

  lemma DoesDrop(dir: nat, name: Name)
    ensures Does(DropName(dir, name), RemoveName(dir, name))
      && Does(DropDirectory(dir, name), RemoveDirectory(dir, name))
  {
  }

  /** No directory holds an empty name. */
  lemma NoEmptyName(v: Volume, table: Table, dir: nat, name: Name)
    requires Mounted(v, table)
    ensures dir in table && name in table[dir] ==> name != []
  {
    hide *;
    MountedFacts(v, table);
    DirCountsAre(v);
    if dir in table && name in table[dir] {
      NamesFacts(v.geo.blockSize, v.D(), v.live, table);
      HoldingIs(v.geo.blockSize, v.D(), dir, table[dir]);
      MapNames(Content(v.geo.blockSize, v.D(), dir), v.geo.blockSize, 0, |Content(v.geo.blockSize, v.D(), dir)|,
               name) by {
        DirOkFacts(Content(v.geo.blockSize, v.D(), dir), v.geo.blockSize);
      }
      DirOkFacts(Content(v.geo.blockSize, v.D(), dir), v.geo.blockSize);
      NameFits(name);
    }
  }

  lemma {:induction false} MapNames(c: seq<byte>, bs: nat, a: nat, b: nat, name: Name)
    requires bs > 0 && Tiled(c, bs, a, b) && name in NameMap(c, bs, a, b)
    ensures NameOk(name)
    decreases b - a
  {
    hide EntryAt, NameAt, NameOk;
    TiledNext(c, bs, a, b);
    if name !in NamesAt(c, a) { MapNames(c, bs, a + EntryAt(c, a).recLen, b, name); }
  }

  method DoDropDirectory(v: Volume, table: Table, dir: nat, name: Name)
      returns (table': Table, ghost done: bool, ghost op: Operation)
    requires Mounted(v, table)
    modifies v
    ensures Mounted(v, table')
    ensures Outcome(v.geo, DropDirectory(dir, name), old(Snap(v)), table, Snap(v), table', done, op)
  {
    hide *;
    ghost var s, cmd := Snap(v), DropDirectory(dir, name);
    table', done, op := table, false, RemoveDirectory(dir, name);
    MountedFacts(v, table);
    DirCountsAre(v);
    ReadyDrops(v.geo, s, table, dir, name);
    OwnNameIs(table, dir, name);
    if dir !in table || name !in table[dir] || name == DOT || name == DOTDOT || table[dir][name] !in table
      || table[dir][name] == dir {
      Skipped(v.geo, cmd, s, table, op);
      return;
    }
    NoEmptyName(v, table, dir, name);
    var a := table[dir][name];
    var h := OpenDirectory(v, dir, table);
    var removed;
    ghost var names;
    removed, names := DeleteDirectory(v, h, name, table);
    if removed {
      TableOf(v.geo.blockSize, op, s, table, Snap(v), names);
      table', done := Removing(table - {a}, dir, name), true;
      DoesDrop(dir, name);
      DirCountsNow(v, table');
      TakesAway(v.geo, cmd, s, Snap(v), op);
      Done(v.geo, cmd, s, table, Snap(v), table', op);
    } else {
      Skipped(v.geo, cmd, s, table, op);
    }
  }

  method DoPut(v: Volume, table: Table, ino: nat, offset: nat, data: seq<byte>)
      returns (ghost done: bool, ghost op: Operation)
    requires Mounted(v, table)
    modifies v
    ensures Mounted(v, table)
    ensures Outcome(v.geo, Put(ino, offset, data), old(Snap(v)), table, Snap(v), table, done, op)
  {
    hide *;
    ghost var s, cmd := Snap(v), Put(ino, offset, data);
    done, op := false, Write(ino);
    MountedFacts(v, table);
    DirCountsAre(v);
    ReadyPut(v.geo, s, table, ino, offset, data);
    LiveBit(v, ino);
    TwoTo32();
    if !v.geo.IsInode(ino) || !TestBit(v.inodeBits[v.geo.InodeGroup(ino)], v.geo.InodeBit(ino))
       || ino in table || offset + |data| >= 0x1_0000_0000 {
      Skipped(v.geo, cmd, s, table, op);
      return;
    }
    var h := new FileHandle();
    ReadInode(v, h, ino);
    var needs := WriteSpace(v, h, offset, |data|);
    SnapIs(v);
    MountedIs(v, table);
    if |needs| > v.freeBlocks {
      Skipped(v.geo, cmd, s, table, op);
      return;
    }
    var n := WriteNamed(v, h, data, offset, table);
    done := true;
    DoesPut(ino, offset, data);
    SnapIs(v);
    DirCountsNow(v, table);
    ReadsAs(v.geo, ino, offset, data, s, Snap(v), op);
    Done(v.geo, cmd, s, table, Snap(v), table, op);
  }

  lemma DoesPut(ino: nat, offset: nat, data: seq<byte>)
    ensures Does(Put(ino, offset, data), Write(ino))
  {
  }

  /** One command: its guard is tested, for names on the table that goes with the volume and otherwise on the volume
      itself, and its operation runs where the guard holds. */
  method Execute(v: Volume, table: Table, cmd: Command) returns (table': Table, ghost done: bool, ghost op: Operation)
    requires Mounted(v, table)
    modifies v
    ensures Mounted(v, table')
    ensures Outcome(v.geo, cmd, old(Snap(v)), table, Snap(v), table', done, op)
  {
    hide *;
    match cmd
    case NewFile(dir, name, mode) => table', done, op := DoNewFile(v, table, dir, name, mode);
    case NewDirectory(dir, name, mode) => table', done, op := DoNewDirectory(v, table, dir, name, mode);
    case DropName(dir, name) => table', done, op := DoDropName(v, table, dir, name);
    case DropDirectory(dir, name) => table', done, op := DoDropDirectory(v, table, dir, name);
    case Put(ino, offset, data) =>
      table' := table;
      done, op := DoPut(v, table, ino, offset, data);
  }

  // ---- runs ----

  /** A run: one state more than there are commands, and each command's outcome leads from one to the next. In every
      state the namespace is right and blocks, owners and counters agree. */
  ghost predicate Run(geo: Geometry, reserved: set<nat>, cmds: seq<Command>, states: seq<(Snapshot, Table)>) {
    && |states| == |cmds| + 1
    && (forall k | 0 <= k < |states| :: GoodState(geo, reserved, states[k]))
    && (forall k | 0 <= k < |cmds| :: Step(geo, cmds[k], states[k], states[k + 1]))
  }

  ghost predicate GoodState(geo: Geometry, reserved: set<nat>, state: (Snapshot, Table)) {
    FsOk(geo.blockSize, state.0, state.1) && Conserved(geo, reserved, state.0)
  }

  ghost predicate Step(geo: Geometry, cmd: Command, before: (Snapshot, Table), after: (Snapshot, Table)) {
    exists done, op :: Outcome(geo, cmd, before.0, before.1, after.0, after.1, done, op)
  }

  lemma GoodNow(v: Volume, table: Table)
    requires Mounted(v, table)
    ensures GoodState(v.geo, v.reserved, (Snap(v), table))
  {
    hide FsOk, Conserved;
    ConservedAlways(v);
  }

  lemma RunStart(geo: Geometry, reserved: set<nat>, state: (Snapshot, Table))
    requires GoodState(geo, reserved, state)
    ensures Run(geo, reserved, [], [state])
  {
    hide GoodState;
  }

  lemma RunMore(geo: Geometry, reserved: set<nat>, cmds: seq<Command>, states: seq<(Snapshot, Table)>,
                cmd: Command, state: (Snapshot, Table), done: bool, op: Operation)
    requires Run(geo, reserved, cmds, states) && GoodState(geo, reserved, state)
    requires var last := states[|states| - 1]; Outcome(geo, cmd, last.0, last.1, state.0, state.1, done, op)
    ensures Run(geo, reserved, cmds + [cmd], states + [state])
  {
    hide GoodState, Outcome;
    var last := states[|states| - 1];
    assert Step(geo, cmd, last, state);
  }

  /** Whatever is asked for, in whatever order: after every command the volume is consistent and its namespace right, so
      marked blocks are the reserved and the reachable ones, no block has two places, every counter tells the truth and
      every link count counts names; and the states form a run. `states` is the history. */
  method RunAll(v: Volume, table: Table, cmds: seq<Command>)
      returns (table': Table, ghost states: seq<(Snapshot, Table)>)
    requires Mounted(v, table)
    modifies v
    ensures Mounted(v, table')
    ensures Run(v.geo, v.reserved, cmds, states) && |states| > 0
    ensures states[0] == (old(Snap(v)), table) && states[|states| - 1] == (Snap(v), table')
    ensures forall b: nat :: b in v.Marked() <==>
      b in v.reserved || (b != 0 && exists p :: Place(v.geo.blockSize / 4, v.live, p) && At(v.D(), p) == b)
  {
    hide *;
    table' := table;
    states := [(Snap(v), table)];
    GoodNow(v, table);
    RunStart(v.geo, v.reserved, (Snap(v), table));
    var i := 0;
    assert cmds[..0] == [];
    while i < |cmds|
      invariant 0 <= i <= |cmds| && Mounted(v, table')
      invariant Run(v.geo, v.reserved, cmds[..i], states) && |states| > 0
      invariant states[0] == (old(Snap(v)), table) && states[|states| - 1] == (Snap(v), table')
    {
      ghost var done, op;
      table', done, op := Execute(v, table', cmds[i]);
      GoodNow(v, table');
      RunMore(v.geo, v.reserved, cmds[..i], states, cmds[i], (Snap(v), table'), done, op);
      assert cmds[..i] + [cmds[i]] == cmds[..i + 1];
      states := states + [(Snap(v), table')];
      i := i + 1;
    }
    assert cmds[..i] == cmds;
    MountedIs(v, table');
    forall b: nat
      ensures b in v.Marked() <==>
        b in v.reserved || (b != 0 && exists p :: Place(v.geo.blockSize / 4, v.live, p) && At(v.D(), p) == b)
    {
      MarkedIsReachable(v, b);
    }
  }
}
