/** The namespace as a value: which names every directory holds, and the rule that link counts count them. */
module Names {
  import opened Bytes
  import opened Tree
  import opened Contents
  import opened NewInodes
  import opened FileIO
  import opened DirRecords
  import opened RecordBytes
  import opened Directories
  import opened Unlinking

  /** For every directory the names it holds and the inodes they lead to. */
  type Table = map<nat, map<Name, nat>>

  /** The directory entries that name inode ino. */
  ghost function Refs(names: Table, ino: nat): set<(nat, Name)> {
    set dir: nat, n: Name | dir in names && n in names[dir] && names[dir][n] == ino :: (dir, n)
  }

  lemma InRefs(names: Table, i: nat)
    ensures forall x: (nat, Name) :: x in Refs(names, i) <==> x.0 in names && x.1 in names[x.0] && names[x.0][x.1] == i
  {
  }

  /** The table with one more name, or one name less, in directory dir. */
  function Adding(names: Table, dir: nat, name: Name, ino: nat): Table
    requires dir in names
  {
    var entries: map<Name, nat> := names[dir][name := ino];
    names[dir := entries]
  }

  function Removing(names: Table, dir: nat, name: Name): Table
    requires dir in names
  {
    names[dir := names[dir] - {name}]
  }

  lemma RefsInsert(names: Table, dir: nat, name: Name, ino: nat, i: nat)
    requires dir in names && name !in names[dir]
    ensures Refs(Adding(names, dir, name, ino), i) == Refs(names, i) + (if i == ino then {(dir, name)} else {})
    ensures |Refs(Adding(names, dir, name, ino), i)| == |Refs(names, i)| + (if i == ino then 1 else 0)
  {
    hide Refs;
    InRefs(names, i);
    InRefs(Adding(names, dir, name, ino), i);
    assert (dir, name) !in Refs(names, i);
  }

  lemma RefsRemove(names: Table, dir: nat, name: Name, i: nat)
    requires dir in names && name in names[dir]
    ensures Refs(Removing(names, dir, name), i) == Refs(names, i) - {(dir, name)}
    ensures |Refs(Removing(names, dir, name), i)| == |Refs(names, i)| - (if i == names[dir][name] then 1 else 0)
  {
    hide Refs;
    InRefs(names, i);
    InRefs(Removing(names, dir, name), i);
    assert (dir, name) in Refs(names, i) <==> i == names[dir][name];
  }

  lemma RefsDrop(names: Table, dir: nat, name: Name, i: nat)
    requires dir in names && names[dir].Keys == {name}
    ensures Refs(names - {dir}, i) == Refs(names, i) - {(dir, name)}
    ensures |Refs(names - {dir}, i)| == |Refs(names, i)| - (if i == names[dir][name] then 1 else 0)
  {
    hide Refs;
    InRefs(names, i);
    InRefs(names - {dir}, i);
    assert (dir, name) in Refs(names, i) <==> i == names[dir][name];
  }

  lemma RefsNew(names: Table, dir: nat, i: nat)
    requires dir !in names
    ensures Refs(names[dir := map[]], i) == Refs(names, i)
  {
    hide Refs;
    InRefs(names, i);
    InRefs(names[dir := map[]], i);
  }

  lemma RefsHas(names: Table, dir: nat, name: Name)
    requires dir in names && name in names[dir]
    ensures (dir, name) in Refs(names, names[dir][name]) && |Refs(names, names[dir][name])| > 0
  {
    var r := Refs(names, names[dir][name]);
    assert (dir, name) in r;
    assert r != {};
  }

  lemma RefsTwo(names: Table, dir: nat, name: Name, dir': nat, name': Name)
    requires dir in names && name in names[dir] && dir' in names && name' in names[dir']
    requires (dir, name) != (dir', name') && names[dir][name] == names[dir'][name']
    ensures |Refs(names, names[dir][name])| >= 2
  {
    var r := Refs(names, names[dir][name]);
    assert (dir, name) in r && (dir', name') in r;
    assert r == (r - {(dir, name)}) + {(dir, name)};
    assert (dir', name') in r - {(dir, name)};
    assert r - {(dir, name)} != {};
  }

  /** The names table tells the truth: every directory in it holds exactly the names the table gives it, every name
      leads to a live inode, and the link count of every live inode is the number of names that lead to it. */
  ghost predicate NamesOk(bs: nat, d: Disk, live: set<nat>, names: Table) {
    BlockSizeOk(bs) && Held(bs, d, live, names) && Closed(live, names) && Counted(d, live, names)
  }

  ghost predicate Held(bs: nat, d: Disk, live: set<nat>, names: Table)
    requires BlockSizeOk(bs)
  {
    names.Keys <= live && forall dir | dir in names :: Holding(bs, d, dir, names[dir])
  }

  ghost predicate Closed(live: set<nat>, names: Table) {
    forall dir, n | dir in names && n in names[dir] :: names[dir][n] in live
  }

  ghost predicate Counted(d: Disk, live: set<nat>, names: Table) {
    forall i | i in live :: i < |d.inodes| && d.inodes[i].links == |Refs(names, i)|
  }

  /** File dir is a directory with just these names. */
  ghost predicate Holding(bs: nat, d: Disk, dir: nat, entries: map<Name, nat>)
    requires BlockSizeOk(bs)
  {
    DirOk(Content(bs, d, dir), bs) && DirMap(Content(bs, d, dir), bs) == entries
  }

  /** Every directory begins with "." and "..", which lead to itself and to some directory. */
  ghost predicate HasDots(bs: nat, d: Disk, names: Table)
    requires BlockSizeOk(bs)
  {
    forall dir | dir in names :: DotsOf(bs, d, dir, names[dir])
  }

  ghost predicate DotsOf(bs: nat, d: Disk, dir: nat, entries: map<Name, nat>)
    requires BlockSizeOk(bs)
  {
    && DOT in entries && entries[DOT] == dir && DOTDOT in entries
    && Dots(Content(bs, d, dir), dir, entries[DOTDOT])
  }

  /** In every directory each live record tells the type of the file it names: 1 for a mode with S_IFREG, 2 for one with
      S_IFDIR alone, 0 for all others. */
  ghost predicate HasTypes(bs: nat, d: Disk, names: Table)
    requires BlockSizeOk(bs)
  {
    forall dir | dir in names :: TypesOf(bs, d, dir)
  }

  ghost predicate TypesOf(bs: nat, d: Disk, dir: nat)
    requires BlockSizeOk(bs)
  {
    forall o: nat | RecordIn(Content(bs, d, dir), bs, o) && EntryAt(Content(bs, d, dir), o).inode != 0 ::
      TypeRight(d, EntryAt(Content(bs, d, dir), o))
  }

  ghost predicate TypeRight(d: Disk, e: DirRecords.Entry) {
    e.inode < |d.inodes| && TypeOfMode(d.inodes[e.inode].mode, e.fileType)
  }

  ghost predicate TypeOfMode(mode: bv16, t: nat) {
    t == if mode & 0x8000 != 0 then 1 else if mode & 0x4000 != 0 then 2 else 0
  }

  // ---- the steps and what they keep ----

  /** The inode has this mode, and neither links nor bytes nor blocks. */
  ghost predicate EmptyInode(d: Disk, ino: nat, mode: bv16) {
    && ino < |d.inodes| && d.inodes[ino].mode == mode
    && d.inodes[ino].links == 0 && d.inodes[ino].size == 0 && d.inodes[ino].iblocks == 0
    && |d.inodes[ino].block| == SLOTS && (forall s | 0 <= s < SLOTS :: d.inodes[ino].block[s] == 0)
  }

  lemma FreshIsEmpty(d: Disk, ino: nat, mode: bv16)
    requires ino < |d.inodes| && d.inodes[ino] == FreshInode(mode)
    ensures EmptyInode(d, ino, mode)
  {
    FreshInodeEmpty(mode);
  }

  /** allocate_new_inode as a step. */
  ghost predicate Allocated(bs: nat, s: Snapshot, s': Snapshot, ino: nat, mode: bv16) {
    && BlockSizeOk(bs) && ino !in s.live && 0 < ino < |s.disk.inodes|
    && s'.disk == Disk(s.disk.blocks, s.disk.inodes[ino := FreshInode(mode)])
    && EmptyInode(s'.disk, ino, mode)
    && s'.live == s.live + {ino} && s'.owner == s.owner && s'.freeBlocks == s.freeBlocks
    && SameBytes(bs, s.disk, s'.disk, s.live)
    && Untouched(bs / 4, s.disk, s'.disk, s.live, s.owner, ino)
  }

  lemma AllocatedReads(bs: nat, s: Snapshot, s': Snapshot, ino: nat, mode: bv16)
    requires Allocated(bs, s, s', ino, mode)
    ensures AllRead(bs, s.disk, s'.disk, s.live) && Content(bs, s'.disk, ino) == []
    ensures s'.disk.inodes[ino] == FreshInode(mode) && s'.disk.inodes[ino].links == 0
    ensures forall i | 0 <= i < |s.disk.inodes| && i != ino :: s'.disk.inodes[i] == s.disk.inodes[i]
  {
    hide ByteAt, Untouched;
    FreshInodeEmpty(mode);
    forall i | i in s.live
      ensures Content(bs, s'.disk, i) == Content(bs, s.disk, i)
    {
      assert SizeOf(s'.disk, i) == SizeOf(s.disk, i);
    }
  }

  lemma HeldKept(bs: nat, d: Disk, d': Disk, live: set<nat>, live': set<nat>, names: Table)
    requires BlockSizeOk(bs) && Held(bs, d, live, names) && names.Keys <= live'
    requires forall k | k in names :: Content(bs, d', k) == Content(bs, d, k)
    ensures Held(bs, d', live', names)
  {
    hide DirOk, DirMap, Content;
  }

  lemma HeldAfter(bs: nat, d: Disk, d': Disk, live: set<nat>, live': set<nat>, names: Table, names': Table, dir: nat)
    requires BlockSizeOk(bs) && Held(bs, d, live, names) && names'.Keys <= live'
    requires forall k | k in names' && k != dir ::
      k in names && names'[k] == names[k] && Content(bs, d', k) == Content(bs, d, k)
    requires dir in names' ==> Holding(bs, d', dir, names'[dir])
    ensures Held(bs, d', live', names')
  {
    hide DirOk, DirMap, Content;
  }

  lemma CountedAfter(d: Disk, d': Disk, live: set<nat>, live': set<nat>, names: Table, names': Table, t: nat,
                     delta: int)
    requires Counted(d, live, names) && LinksMoved(d, d', live', t, delta) && live' <= live
    requires forall i :: |Refs(names', i)| == |Refs(names, i)| + (if i == t then delta else 0)
    ensures Counted(d', live', names')
  {
    hide Refs;
  }

  lemma NamesFacts(bs: nat, d: Disk, live: set<nat>, names: Table)
    requires NamesOk(bs, d, live, names)
    ensures BlockSizeOk(bs) && Held(bs, d, live, names) && Closed(live, names) && Counted(d, live, names)
    ensures forall dir | dir in names :: dir in live && Holding(bs, d, dir, names[dir])
    ensures forall dir, n | dir in names && n in names[dir] :: names[dir][n] in live
    ensures forall i | i in live :: i < |d.inodes| && d.inodes[i].links == |Refs(names, i)|
  {
    hide Holding, Refs;
  }

  /** A new inode has no names. As an ordinary file it leaves the table as it is ... */
  lemma AllocateKeeps(bs: nat, s: Snapshot, s': Snapshot, ino: nat, mode: bv16, names: Table)
    requires NamesOk(bs, s.disk, s.live, names) && Allocated(bs, s, s', ino, mode)
    ensures NamesOk(bs, s'.disk, s'.live, names) && ino !in names
  {
    hide DirOk, DirMap, Untouched, SameBytes, Content, Refs, Holding, FreshInode;
    AllocatedReads(bs, s, s', ino, mode);
    NoRefs(names, ino);
    HeldKept(bs, s.disk, s'.disk, s.live, s'.live, names);
  }

  lemma NoRefs(names: Table, t: nat)
    requires forall dir, n | dir in names && n in names[dir] :: names[dir][n] != t
    ensures |Refs(names, t)| == 0
  {
    assert Refs(names, t) == {};
  }

  /** ... and as a directory it begins with no names at all. */
  lemma NewTable(bs: nat, d: Disk, live: set<nat>, ino: nat, names: Table)
    requires NamesOk(bs, d, live, names) && ino in live && ino !in names && Content(bs, d, ino) == []
    ensures NamesOk(bs, d, live, names[ino := map[]])
  {
    hide DirOk, DirMap, Content, Refs, Holding;
    assert Holding(bs, d, ino, map[]) by { EmptyHolds(bs, d, ino); }
    forall i ensures Refs(names[ino := map[]], i) == Refs(names, i) { RefsNew(names, ino, i); }
    HeldAfter(bs, d, d, live, live, names, names[ino := map[]], ino);
  }

  lemma EmptyHolds(bs: nat, d: Disk, ino: nat)
    requires BlockSizeOk(bs) && Content(bs, d, ino) == []
    ensures Holding(bs, d, ino, map[])
  {
    EmptyDir(bs);
  }

  lemma EmptyDir(bs: nat)
    requires BlockSizeOk(bs)
    ensures DirOk([], bs) && DirMap([], bs) == map[] && FirstRoom([], bs, 0, 1) == 0
  {
  }

  lemma MadeReads(bs: nat, s: Snapshot, s': Snapshot, dir: nat, ino: nat, name: Name)
    requires EntryMade(bs, s, s', dir, ino, name) && ino in s.live && 0 < ino < TWO32
    requires NameOk(name) && name !in DirMap(Content(bs, s.disk, dir), bs)
    ensures var c := Content(bs, s.disk, dir);
      Holding(bs, s'.disk, dir, DirMap(c, bs)[name := ino])
      && (forall self, parent | Dots(c, self, parent) :: Dots(Content(bs, s'.disk, dir), self, parent))
    ensures OthersRead(bs, s.disk, s'.disk, s.live, dir) && LinksMoved(s.disk, s'.disk, s.live, ino, 1)
      && s'.live == s.live
  {
    hide DirOk, DirMap, Inserted, Content, NameOk, Dots, Untouched, OwnersBut, LinksMoved;
    InsertedOk(Content(bs, s.disk, dir), bs, ino, FileType(s.disk.inodes[ino].mode), name);
  }

  /** create_dir_entry_ext2 adds one name to the table. */
  lemma EnterKeeps(bs: nat, s: Snapshot, s': Snapshot, dir: nat, ino: nat, name: Name, names: Table)
    requires NamesOk(bs, s.disk, s.live, names) && EntryMade(bs, s, s', dir, ino, name)
    requires dir in names && ino in s.live && 0 < ino < TWO32 && NameOk(name) && name !in names[dir]
    ensures NamesOk(bs, s'.disk, s'.live, Adding(names, dir, name, ino))
  {
    hide DirOk, DirMap, Content, Refs, EntryMade, Dots, NameOk, LinksMoved, Held, Counted;
    NamesFacts(bs, s.disk, s.live, names);
    MadeReads(bs, s, s', dir, ino, name);
    forall i
      ensures |Refs(Adding(names, dir, name, ino), i)| == |Refs(names, i)| + (if i == ino then 1 else 0)
    {
      RefsInsert(names, dir, name, ino, i);
    }
    CountedAfter(s.disk, s'.disk, s.live, s'.live, names, Adding(names, dir, name, ino), ino, 1);
    HeldAfter(bs, s.disk, s'.disk, s.live, s'.live, names, Adding(names, dir, name, ino), dir);
  }

  lemma EnterKeepsDots(bs: nat, s: Snapshot, s': Snapshot, dir: nat, ino: nat, name: Name, names: Table)
    requires NamesOk(bs, s.disk, s.live, names) && EntryMade(bs, s, s', dir, ino, name) && HasDots(bs, s.disk, names)
    requires dir in names && ino in s.live && 0 < ino < TWO32 && NameOk(name) && name !in names[dir]
    ensures HasDots(bs, s'.disk, Adding(names, dir, name, ino))
  {
    hide DirOk, DirMap, Content, Refs, EntryMade, Dots, NameOk, LinksMoved, Held, Counted, Closed, HasDots;
    NamesFacts(bs, s.disk, s.live, names);
    MadeReads(bs, s, s', dir, ino, name);
    DotsIn(bs, s.disk, names, dir);
    HasDotsAfter(bs, s.disk, s'.disk, s'.live, names, Adding(names, dir, name, ino), dir);
  }

  /** Taking a name away: a file whose last name is gone is no longer there, and no name leads to it. A directory is
      named by its own ".", so it is never the file that goes. */
  lemma RemoveKeeps(bs: nat, s: Snapshot, s': Snapshot, dir: nat, name: Name, names: Table)
    requires NamesOk(bs, s.disk, s.live, names) && Unlinked(bs, s, s', dir, name)
    requires dir in names && name in names[dir] && !FirstName(Content(bs, s.disk, dir), name)
    requires names[dir][name] < |s.disk.inodes|
    requires s.disk.inodes[names[dir][name]].links == 1 ==> names[dir][name] !in names
    ensures NamesOk(bs, s'.disk, s'.live, Removing(names, dir, name))
    ensures names[dir][name] !in s'.live <==> |Refs(names, names[dir][name])| == 1
  {
    hide *;
    NamesFacts(bs, s.disk, s.live, names);
    UnlinkedHolds(bs, s, s', dir, name, names[dir]);
    var t, names' := names[dir][name], Removing(names, dir, name);
    RemovingIs(names, dir, name);
    RefsHas(names, dir, name);
    forall i
      ensures |Refs(names', i)| == |Refs(names, i)| - (if i == t then 1 else 0)
    {
      RefsRemove(names, dir, name, i);
    }
    TableAfter(bs, s, s', dir, t, names, names');
  }

  lemma RemovingIs(names: Table, dir: nat, name: Name)
    requires dir in names
    ensures Removing(names, dir, name).Keys == names.Keys && Removing(names, dir, name)[dir] == names[dir] - {name}
    ensures forall k | k in names && k != dir :: Removing(names, dir, name)[k] == names[k]
  {
  }

  /** What an unlink does, in the words of the table. */
  lemma UnlinkedHolds(bs: nat, s: Snapshot, s': Snapshot, dir: nat, name: Name, entries: map<Name, nat>)
    requires Unlinked(bs, s, s', dir, name) && BlockSizeOk(bs) && Holding(bs, s.disk, dir, entries)
    ensures name in entries && LinkDropped(bs, s, s', entries[name]) && OthersRead(bs, s.disk, s'.disk, s'.live, dir)
    ensures !FirstName(Content(bs, s.disk, dir), name) ==> Holding(bs, s'.disk, dir, entries - {name})
  {
    hide DirOk, DirMap, FirstName, LinkDropped, Content;
  }

  /** One link of t gone from the disk, and one reference to t gone from the table. */
  lemma TableAfter(bs: nat, s: Snapshot, s': Snapshot, dir: nat, t: nat, names: Table, names': Table)
    requires NamesOk(bs, s.disk, s.live, names) && LinkDropped(bs, s, s', t) && t in s.live
    requires OthersRead(bs, s.disk, s'.disk, s'.live, dir) && names'.Keys <= names.Keys
    requires forall k | k in names' && k != dir :: names'[k] == names[k]
    requires dir in names' ==>
      && Holding(bs, s'.disk, dir, names'[dir])
      && forall n | n in names'[dir] :: n in names[dir] && names'[dir][n] == names[dir][n]
    requires forall i :: |Refs(names', i)| == |Refs(names, i)| - (if i == t then 1 else 0)
    requires s.disk.inodes[t].links == 1 ==> t !in names
    ensures NamesOk(bs, s'.disk, s'.live, names')
    ensures t !in s'.live <==> |Refs(names, t)| == 1
  {
    hide DirOk, DirMap, Content, Refs, Held, Counted, Holding, FileBlocks, LinksMoved;
    NamesFacts(bs, s.disk, s.live, names);
    HeldAfter(bs, s.disk, s'.disk, s.live, s'.live, names, names', dir);
    CountedAfter(s.disk, s'.disk, s.live, s'.live, names, names', t, -1);
    if t !in s'.live { GoneFromTable(names', t); }
  }

  lemma GoneFromTable(names: Table, t: nat)
    requires |Refs(names, t)| == 0
    ensures forall dir, n | dir in names && n in names[dir] :: names[dir][n] != t
  {
    forall dir, n | dir in names && n in names[dir]
      ensures names[dir][n] != t
    {
      if names[dir][n] == t { RefsHas(names, dir, n); }
    }
  }

  lemma RemoveKeepsDots(bs: nat, s: Snapshot, s': Snapshot, dir: nat, name: Name, names: Table)
    requires NamesOk(bs, s.disk, s.live, names) && Unlinked(bs, s, s', dir, name) && HasDots(bs, s.disk, names)
    requires dir in names && name in names[dir] && name != DOT && name != DOTDOT
    requires names[dir][name] < |s.disk.inodes|
    requires s.disk.inodes[names[dir][name]].links == 1 ==> names[dir][name] !in names
    ensures !FirstName(Content(bs, s.disk, dir), name)
    ensures HasDots(bs, s'.disk, Removing(names, dir, name))
  {
    hide *;
    NamesFacts(bs, s.disk, s.live, names);
    DotsIn(bs, s.disk, names, dir);
    FirstIsDot(Content(bs, s.disk, dir), dir, names[dir][DOTDOT], name);
    UnlinkedDots(bs, s, s', dir, name, names[dir]);
    LiveAfter(bs, s, s', names[dir][name], names);
    RemovingIs(names, dir, name);
    HasDotsAfter(bs, s.disk, s'.disk, s'.live, names, Removing(names, dir, name), dir);
  }

  lemma DotsIn(bs: nat, d: Disk, names: Table, dir: nat)
    requires BlockSizeOk(bs) && HasDots(bs, d, names) && dir in names
    ensures DotsOf(bs, d, dir, names[dir])
    ensures DOT in names[dir] && names[dir][DOT] == dir && DOTDOT in names[dir]
      && Dots(Content(bs, d, dir), dir, names[dir][DOTDOT])
  {
  }

  lemma UnlinkedDots(bs: nat, s: Snapshot, s': Snapshot, dir: nat, name: Name, entries: map<Name, nat>)
    requires Unlinked(bs, s, s', dir, name) && BlockSizeOk(bs) && Holding(bs, s.disk, dir, entries)
    requires name != DOT && name != DOTDOT && DotsOf(bs, s.disk, dir, entries)
      && !FirstName(Content(bs, s.disk, dir), name)
    ensures DotsOf(bs, s'.disk, dir, entries - {name})
    ensures LinkDropped(bs, s, s', entries[name]) && OthersRead(bs, s.disk, s'.disk, s'.live, dir)
  {
    hide DirOk, DirMap, FirstName, LinkDropped, Content, Dots;
  }

  lemma LiveAfter(bs: nat, s: Snapshot, s': Snapshot, t: nat, names: Table)
    requires LinkDropped(bs, s, s', t) && (s.disk.inodes[t].links == 1 ==> t !in names)
    requires forall k | k in names :: k in s.live
    ensures forall k | k in names :: k in s'.live
  {
  }

  lemma HasDotsAfter(bs: nat, d: Disk, d': Disk, live: set<nat>, names: Table, names': Table, dir: nat)
    requires BlockSizeOk(bs) && HasDots(bs, d, names) && OthersRead(bs, d, d', live, dir)
    requires names'.Keys <= names.Keys && forall k | k in names' :: k in live
    requires forall k | k in names' && k != dir :: names'[k] == names[k]
    requires dir in names' ==> DotsOf(bs, d', dir, names'[dir])
    ensures HasDots(bs, d', names')
  {
    hide Dots, Content;
    forall k | k in names'
      ensures DotsOf(bs, d', k, names'[k])
    {
      assert DotsOf(bs, d, k, names[k]);
    }
  }

  lemma FirstIsDot(c: seq<byte>, self: nat, parent: nat, name: Name)
    requires Dots(c, self, parent)
    ensures FirstName(c, name) <==> name == DOT
  {
  }

  /** A directory with its dots is named twice when a name leads to it, so a link it loses is not its last. */
  lemma DirectoryStays(bs: nat, d: Disk, live: set<nat>, names: Table, dir: nat, name: Name)
    requires NamesOk(bs, d, live, names) && dir in names && name in names[dir]
    requires names[dir][name] in names ==> DotsOf(bs, d, names[dir][name], names[names[dir][name]])
    requires (dir, name) != (names[dir][name], DOT)
    ensures names[dir][name] in live && d.inodes[names[dir][name]].links > 0
    ensures d.inodes[names[dir][name]].links == 1 ==> names[dir][name] !in names
  {
    hide DirOk, DirMap, Content, Refs, Dots;
    var t := names[dir][name];
    RefsHas(names, dir, name);
    if t in names { RefsTwo(names, dir, name, t, DOT); }
  }

  /** Unlinking the first and only name a directory has left takes the directory out of the table. */
  lemma DismantleKeeps(bs: nat, s: Snapshot, s': Snapshot, dir: nat, name: Name, names: Table)
    requires NamesOk(bs, s.disk, s.live, names) && Unlinked(bs, s, s', dir, name)
    requires dir in names && names[dir].Keys == {name} && name in names[dir]
    requires names[dir][name] < |s.disk.inodes|
    requires s.disk.inodes[names[dir][name]].links == 1 ==> names[dir][name] !in names
    ensures NamesOk(bs, s'.disk, s'.live, names - {dir})
    ensures names[dir][name] !in s'.live <==> |Refs(names, names[dir][name])| == 1
  {
    hide *;
    NamesFacts(bs, s.disk, s.live, names);
    UnlinkedHolds(bs, s, s', dir, name, names[dir]);
    var t := names[dir][name];
    forall i
      ensures |Refs(names - {dir}, i)| == |Refs(names, i)| - (if i == t then 1 else 0)
    {
      RefsDrop(names, dir, name, i);
    }
    TableAfter(bs, s, s', dir, t, names, names - {dir});
  }

  /** Writing to a file that is not a directory leaves the table alone. */
  lemma WriteKeeps(bs: nat, d: Disk, d': Disk, live: set<nat>, ino: nat, names: Table)
    requires NamesOk(bs, d, live, names) && OnlyContent(bs, d, d', live, ino) && ino !in names
    ensures NamesOk(bs, d', live, names)
    ensures HasDots(bs, d, names) ==> HasDots(bs, d', names)
  {
    hide DirOk, DirMap, Content, Refs, Dots, Holding;
    HeldKept(bs, d, d', live, live, names);
    if HasDots(bs, d, names) { DotsKept(bs, d, d', names); }
  }

  lemma DotsKept(bs: nat, d: Disk, d': Disk, names: Table)
    requires BlockSizeOk(bs) && HasDots(bs, d, names)
    requires forall k | k in names :: Content(bs, d', k) == Content(bs, d, k)
    ensures HasDots(bs, d', names)
  {
    hide Dots, Content;
    forall dir | dir in names ensures DotsOf(bs, d', dir, names[dir]) { assert DotsOf(bs, d, dir, names[dir]); }
  }

  // ---- the types of records ----

  ghost predicate ModesKept(d: Disk, d': Disk, live: set<nat>) {
    |d'.inodes| == |d.inodes| && forall i | i in live && i < |d.inodes| :: d'.inodes[i].mode == d.inodes[i].mode
  }

  lemma TypesAt(bs: nat, d: Disk, dir: nat, o: nat)
    requires BlockSizeOk(bs) && TypesOf(bs, d, dir) && RecordIn(Content(bs, d, dir), bs, o)
    requires EntryAt(Content(bs, d, dir), o).inode != 0
    ensures TypeRight(d, EntryAt(Content(bs, d, dir), o))
  {
    hide Content, RecordIn, EntryAt, TypeRight;
  }

  /** A record names a live inode. */
  lemma RecordNames(bs: nat, d: Disk, live: set<nat>, names: Table, dir: nat, o: nat)
    requires BlockSizeOk(bs) && Held(bs, d, live, names) && Closed(live, names) && dir in names
    requires RecordIn(Content(bs, d, dir), bs, o) && EntryAt(Content(bs, d, dir), o).inode != 0
    ensures EntryAt(Content(bs, d, dir), o).inode in live
  {
    hide DirOk, DirMap, RecordIn, EntryAt, NameAt, Content;
    NamesInDir(Content(bs, d, dir), bs, o);
    assert NameAt(Content(bs, d, dir), o) in names[dir];
  }

  /** Where all contents but that of dir stay, and the modes of the live inodes do, so do the types. */
  lemma HasTypesAfter(bs: nat, d: Disk, d': Disk, live: set<nat>, names: Table, names': Table, dir: nat)
    requires BlockSizeOk(bs) && HasTypes(bs, d, names) && Held(bs, d', live, names') && Closed(live, names')
    requires names'.Keys <= names.Keys && OthersRead(bs, d, d', live, dir) && ModesKept(d, d', live)
    requires dir in names' ==> TypesOf(bs, d', dir)
    ensures HasTypes(bs, d', names')
  {
    hide Content, RecordIn, EntryAt, Holding;
    forall k | k in names'
      ensures TypesOf(bs, d', k)
    {
      if k != dir {
        assert Content(bs, d', k) == Content(bs, d, k);
        assert TypesOf(bs, d, k);
        forall o: nat | RecordIn(Content(bs, d', k), bs, o) && EntryAt(Content(bs, d', k), o).inode != 0
          ensures TypeRight(d', EntryAt(Content(bs, d', k), o))
        {
          TypesAt(bs, d, k, o);
          RecordNames(bs, d', live, names', k, o);
        }
      }
    }
  }

  lemma KindRight(bs: nat, d: Disk, dir: nat, inode: nat, fileType: nat)
    requires BlockSizeOk(bs) && TypesOf(bs, d, dir) && inode != 0 && KindIn(Content(bs, d, dir), bs, inode, fileType)
    ensures inode < |d.inodes| && TypeOfMode(d.inodes[inode].mode, fileType)
  {
    hide Content, RecordIn, EntryAt, TypeOfMode;
    var o: nat :| RecordIn(Content(bs, d, dir), bs, o) && EntryAt(Content(bs, d, dir), o).inode == inode
      && EntryAt(Content(bs, d, dir), o).fileType == fileType;
    TypesAt(bs, d, dir, o);
  }

  lemma ModesMoved(d: Disk, d': Disk, live: set<nat>, t: nat, delta: int)
    requires LinksMoved(d, d', live, t, delta)
    ensures ModesKept(d, d', live)
  {
  }

  /** Entering a name: the new record tells the type of the file, the others theirs. */
  lemma EnterKeepsTypes(bs: nat, s: Snapshot, s': Snapshot, dir: nat, ino: nat, name: Name, names: Table)
    requires NamesOk(bs, s.disk, s.live, names) && EntryMade(bs, s, s', dir, ino, name) && HasTypes(bs, s.disk, names)
    requires dir in names && ino in s.live && NamesOk(bs, s'.disk, s'.live, Adding(names, dir, name, ino))
    ensures HasTypes(bs, s'.disk, Adding(names, dir, name, ino))
  {
    hide *;
    NamesFacts(bs, s.disk, s.live, names);
    var names' := Adding(names, dir, name, ino);
    NamesFacts(bs, s'.disk, s'.live, names');
    MadeTyped(bs, s, s', dir, ino, name);
    ModesMoved(s.disk, s'.disk, s.live, ino, 1);
    AddingKeys(names, dir, name, ino);
    var c, c' := Content(bs, s.disk, dir), Content(bs, s'.disk, dir);
    SizesOfBlock(bs);
    DirOkFacts(c, bs);
    HasTypesIs(bs, s.disk, names, dir);
    forall r: nat | RecordIn(c', bs, r) && EntryAt(c', r).inode != 0
      ensures TypeRight(s'.disk, EntryAt(c', r))
    {
      var e := EntryAt(c', r);
      var t := TypedKinds(bs, c, c', ino, s.disk.inodes[ino].mode, name, r);
      RecordNames(bs, s'.disk, s'.live, names', dir, r);
      if KindIn(c, bs, e.inode, e.fileType) { KindRight(bs, s.disk, dir, e.inode, e.fileType); }
      SameMode(s.disk, s'.disk, s.live, e.inode);
      TypeRightIs(s'.disk, e);
    }
    TypesOfIs(bs, s'.disk, dir);
    HasTypesAfter(bs, s.disk, s'.disk, s.live, names, names', dir);
  }

  lemma SizesOfBlock(bs: nat)
    requires BlockSizeOk(bs)
    ensures bs == 1024 || bs == 2048
  {
  }

  lemma SameMode(d: Disk, d': Disk, live: set<nat>, i: nat)
    requires ModesKept(d, d', live) && i in live && i < |d.inodes|
    ensures i < |d'.inodes| && d'.inodes[i].mode == d.inodes[i].mode
  {
  }

  lemma TypeRightIs(d: Disk, e: DirRecords.Entry)
    requires e.inode < |d.inodes| && TypeOfMode(d.inodes[e.inode].mode, e.fileType)
    ensures TypeRight(d, e)
  {
    hide TypeOfMode;
  }

  lemma TypesOfIs(bs: nat, d: Disk, dir: nat)
    requires BlockSizeOk(bs)
    requires forall r: nat | RecordIn(Content(bs, d, dir), bs, r) && EntryAt(Content(bs, d, dir), r).inode != 0 ::
      TypeRight(d, EntryAt(Content(bs, d, dir), r))
    ensures TypesOf(bs, d, dir)
  {
    hide Content, RecordIn, EntryAt, TypeRight;
  }

  lemma HasTypesIs(bs: nat, d: Disk, names: Table, dir: nat)
    requires BlockSizeOk(bs) && HasTypes(bs, d, names) && dir in names
    ensures TypesOf(bs, d, dir)
  {
    hide TypesOf;
  }

  lemma AddingKeys(names: Table, dir: nat, name: Name, ino: nat)
    requires dir in names
    ensures Adding(names, dir, name, ino).Keys == names.Keys
  {
  }

  lemma MadeTyped(bs: nat, s: Snapshot, s': Snapshot, dir: nat, ino: nat, name: Name)
    requires EntryMade(bs, s, s', dir, ino, name)
    ensures BlockSizeOk(bs) && DirOk(Content(bs, s.disk, dir), bs) && ino < |s.disk.inodes|
    ensures TypedRecord(bs, Content(bs, s.disk, dir), Content(bs, s'.disk, dir), ino, s.disk.inodes[ino].mode, name)
    ensures OthersRead(bs, s.disk, s'.disk, s.live, dir) && LinksMoved(s.disk, s'.disk, s.live, ino, 1)
    ensures s'.live == s.live
  {
    hide DirOk, Content, TypedRecord, Untouched, Inserted;
  }

  lemma TypedKinds(bs: nat, c: seq<byte>, c': seq<byte>, ino: nat, mode: bv16, name: Name, r: nat) returns (t: nat)
    requires 0 < bs <= 2048 && Tiled(c, bs, 0, |c|) && TypedRecord(bs, c, c', ino, mode, name)
    requires RecordIn(c', bs, r) && EntryAt(c', r).inode != 0
    ensures TypeOfMode(mode, t)
    ensures (EntryAt(c', r).inode == ino && EntryAt(c', r).fileType == t)
      || KindIn(c, bs, EntryAt(c', r).inode, EntryAt(c', r).fileType)
  {
    hide Tiled, RecordIn, EntryAt, RecordMade, KindIn;
    t := if mode & 0x8000 != 0 then 1 else if mode & 0x4000 != 0 then 2 else 0;
    MadeKinds(bs, c, c', ino, t, name, r);
  }

  /** Taking a name away, other than that of the first record. */
  lemma RemoveKeepsTypes(bs: nat, s: Snapshot, s': Snapshot, dir: nat, name: Name, names: Table, names': Table)
    requires NamesOk(bs, s.disk, s.live, names) && Unlinked(bs, s, s', dir, name) && HasTypes(bs, s.disk, names)
    requires dir in names && name in names[dir] && !FirstName(Content(bs, s.disk, dir), name)
    requires NamesOk(bs, s'.disk, s'.live, names') && names'.Keys <= names.Keys
    ensures HasTypes(bs, s'.disk, names')
  {
    hide *;
    NamesFacts(bs, s.disk, s.live, names);
    NamesFacts(bs, s'.disk, s'.live, names');
    UnlinkedHolds(bs, s, s', dir, name, names[dir]);
    LinkDroppedModes(bs, s, s', names[dir][name]);
    var c, c' := Content(bs, s.disk, dir), Content(bs, s'.disk, dir);
    UnlinkedBytes(bs, s, s', dir, name);
    SizesOfBlock(bs);
    HasTypesIs(bs, s.disk, names, dir);
    if dir in names' {
      forall r: nat | RecordIn(c', bs, r) && EntryAt(c', r).inode != 0
        ensures TypeRight(s'.disk, EntryAt(c', r))
      {
        var e := EntryAt(c', r);
        GoneKinds(bs, c, c', name, r);
        RecordNames(bs, s'.disk, s'.live, names', dir, r);
        KindRight(bs, s.disk, dir, e.inode, e.fileType);
        SameMode(s.disk, s'.disk, s'.live, e.inode);
        TypeRightIs(s'.disk, e);
      }
      TypesOfIs(bs, s'.disk, dir);
    }
    HasTypesAfter(bs, s.disk, s'.disk, s'.live, names, names', dir);
  }

  lemma LinkDroppedModes(bs: nat, s: Snapshot, s': Snapshot, t: nat)
    requires LinkDropped(bs, s, s', t)
    ensures ModesKept(s.disk, s'.disk, s'.live)
  {
  }

  lemma UnlinkedBytes(bs: nat, s: Snapshot, s': Snapshot, dir: nat, name: Name)
    requires Unlinked(bs, s, s', dir, name) && !FirstName(Content(bs, s.disk, dir), name)
    ensures BlockSizeOk(bs)
    ensures var c, c' := Content(bs, s.disk, dir), Content(bs, s'.disk, dir);
      && RecordGone(bs, c, c', name) && Tiled(c, bs, 0, |c|) && Tiled(c', bs, 0, |c'|) && |c| > 0
  {
    hide FirstName, Content, LinkDropped, Distinct, FirstKept, Dots, RecordGone, Tiled;
    NoNamesInNothing(bs);
  }

  lemma NoNamesInNothing(bs: nat)
    requires BlockSizeOk(bs)
    ensures DirOk([], bs) && DirMap([], bs) == map[]
  {
  }

  /** A new inode has no record. */
  lemma AllocateKeepsTypes(bs: nat, s: Snapshot, s': Snapshot, ino: nat, mode: bv16, names: Table)
    requires NamesOk(bs, s.disk, s.live, names) && Allocated(bs, s, s', ino, mode) && HasTypes(bs, s.disk, names)
    requires ino !in names
    ensures HasTypes(bs, s'.disk, names)
  {
    hide *;
    NamesFacts(bs, s.disk, s.live, names);
    AllocatedReads(bs, s, s', ino, mode);
    AllocatedModes(bs, s, s', ino, mode);
    ReadsOthers(bs, s.disk, s'.disk, s.live, ino);
    AllReadIs(bs, s.disk, s'.disk, s.live, names);
    HeldKept(bs, s.disk, s'.disk, s.live, s.live, names);
    HasTypesAfter(bs, s.disk, s'.disk, s.live, names, names, ino);
  }

  lemma AllReadIs(bs: nat, d: Disk, d': Disk, live: set<nat>, names: Table)
    requires BlockSizeOk(bs) && AllRead(bs, d, d', live) && forall k | k in names :: k in live
    ensures names.Keys <= live && forall k | k in names :: Content(bs, d', k) == Content(bs, d, k)
  {
  }

  lemma ReadsOthers(bs: nat, d: Disk, d': Disk, live: set<nat>, ino: nat)
    requires BlockSizeOk(bs) && AllRead(bs, d, d', live)
    ensures OthersRead(bs, d, d', live, ino)
  {
  }

  lemma AllocatedModes(bs: nat, s: Snapshot, s': Snapshot, ino: nat, mode: bv16)
    requires Allocated(bs, s, s', ino, mode)
    ensures ModesKept(s.disk, s'.disk, s.live)
  {
  }

  /** A directory without records has none of a wrong type. */
  lemma NewKeepsTypes(bs: nat, d: Disk, names: Table, ino: nat)
    requires BlockSizeOk(bs) && HasTypes(bs, d, names) && Content(bs, d, ino) == []
    ensures HasTypes(bs, d, names[ino := map[]])
  {
    hide Content, EntryAt, TypeRight;
    assert TypesOf(bs, d, ino);
    forall k | k in names[ino := map[]]
      ensures TypesOf(bs, d, k)
    {
      if k != ino { HasTypesIs(bs, d, names, k); }
    }
  }

  lemma WriteKeepsTypes(bs: nat, d: Disk, d': Disk, live: set<nat>, ino: nat, names: Table)
    requires NamesOk(bs, d, live, names) && OnlyContent(bs, d, d', live, ino) && ino !in names && HasTypes(bs, d, names)
    requires NamesOk(bs, d', live, names)
    ensures HasTypes(bs, d', names)
  {
    hide *;
    NamesFacts(bs, d, live, names);
    NamesFacts(bs, d', live, names);
    ContentModes(bs, d, d', live, ino);
    HasTypesAfter(bs, d, d', live, names, names, ino);
  }

  lemma ContentModes(bs: nat, d: Disk, d': Disk, live: set<nat>, ino: nat)
    requires BlockSizeOk(bs) && OnlyContent(bs, d, d', live, ino)
    ensures OthersRead(bs, d, d', live, ino) && ModesKept(d, d', live)
  {
    hide Content;
  }
}
