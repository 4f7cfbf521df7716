/** create, mkdir, unlink, rmdir and write as transitions, and what holds over every run of them. */
module Operations {
  import opened Bytes
  import opened Tree
  import opened Contents
  import opened FileIO
  import opened DirRecords
  import opened Directories
  import opened Unlinking
  import opened Names

  /** The namespace between operations: the table is right, every directory has its dots, and every record tells the
      type of the file it names. */
  ghost predicate FsOk(bs: nat, s: Snapshot, names: Table) {
    NamesOk(bs, s.disk, s.live, names) && HasDots(bs, s.disk, names) && HasTypes(bs, s.disk, names)
  }

  lemma FsFacts(bs: nat, s: Snapshot, names: Table)
    ensures FsOk(bs, s, names) <==>
      && BlockSizeOk(bs) && NamesOk(bs, s.disk, s.live, names) && HasDots(bs, s.disk, names)
      && HasTypes(bs, s.disk, names)
  {
  }

  /** A name that may be entered into directory dir. */
  ghost predicate NewName(names: Table, dir: nat, name: Name) {
    dir in names && name !in names[dir] && NameOk(name)
  }

  /** An ordinary name of directory dir, not one of its dots. */
  ghost predicate OwnName(names: Table, dir: nat, name: Name) {
    dir in names && name in names[dir] && name != DOT && name != DOTDOT
  }

  // ---- create_file_ext2 ----

  lemma SpentByEntry(bs: nat, s: Snapshot, s': Snapshot, dir: nat, ino: nat, name: Name)
    requires EntryMade(bs, s, s', dir, ino, name)
    ensures BlockSizeOk(bs) && DirOk(Content(bs, s.disk, dir), bs)
    ensures s'.freeBlocks + |InsertNeeds(bs, s.disk, dir, name)| == s.freeBlocks
    ensures InsertNeeds(bs, s.disk, dir, name) == {} ==> s'.groups == s.groups && s'.owner == s.owner
    ensures OwnersGrow(s.owner, s'.owner, dir) && s'.freeBlocks + |s'.owner| == s.freeBlocks + |s.owner|
  {
  }

  ghost predicate Created(bs: nat, s: Snapshot, s': Snapshot, dir: nat, ino: nat, name: Name, mode: bv16) {
    exists s1 :: Allocated(bs, s, s1, ino, mode) && EntryMade(bs, s1, s', dir, ino, name)
  }

  lemma AllocatedKeepsFs(bs: nat, s: Snapshot, s': Snapshot, ino: nat, mode: bv16, names: Table)
    requires FsOk(bs, s, names) && Allocated(bs, s, s', ino, mode)
    ensures FsOk(bs, s', names) && ino !in names && ino in s'.live && Content(bs, s'.disk, ino) == []
  {
    hide *;
    FsFacts(bs, s, names);
    AllocateKeeps(bs, s, s', ino, mode, names);
    AllocatedReads(bs, s, s', ino, mode);
    NamesFacts(bs, s.disk, s.live, names);
    AllReadDirs(bs, s.disk, s'.disk, s.live, names);
    DotsKept(bs, s.disk, s'.disk, names);
    AllocateKeepsTypes(bs, s, s', ino, mode, names);
    FsFacts(bs, s', names);
    AllocatedIs(bs, s, s', ino, mode);
  }

  lemma AllocatedIs(bs: nat, s: Snapshot, s': Snapshot, ino: nat, mode: bv16)
    requires Allocated(bs, s, s', ino, mode)
    ensures s'.live == s.live + {ino} && 0 < ino < |s.disk.inodes| == |s'.disk.inodes| && ino !in s.live
    ensures s'.owner == s.owner && s'.freeBlocks == s.freeBlocks
  {
  }

  lemma AllReadDirs(bs: nat, d: Disk, d': Disk, live: set<nat>, names: Table)
    requires BlockSizeOk(bs) && AllRead(bs, d, d', live) && forall k | k in names :: k in live
    ensures forall k | k in names :: Content(bs, d', k) == Content(bs, d, k)
  {
  }

  /** A created file is found under its name, has one link, and all other names lead where they led. */
  lemma CreatedKeeps(bs: nat, s: Snapshot, s': Snapshot, dir: nat, ino: nat, name: Name, mode: bv16, names: Table)
    requires FsOk(bs, s, names) && Created(bs, s, s', dir, ino, name, mode) && NewName(names, dir, name) && ino < TWO32
    ensures FsOk(bs, s', Adding(names, dir, name, ino)) && s'.live == s.live + {ino}
    ensures |Refs(Adding(names, dir, name, ino), ino)| == 1
  {
    var s1 :| Allocated(bs, s, s1, ino, mode) && EntryMade(bs, s1, s', dir, ino, name);
    hide *;
    NewNameIs(names, dir, name);
    AllocatedKeepsFs(bs, s, s1, ino, mode, names);
    AllocatedIs(bs, s, s1, ino, mode);
    EnteredKeepsFs(bs, s1, s', dir, ino, name, names);
    FsFacts(bs, s, names);
    NamesFacts(bs, s.disk, s.live, names);
    NoRefs(names, ino);
    RefsInsert(names, dir, name, ino, ino);
  }

  lemma NewNameIs(names: Table, dir: nat, name: Name)
    ensures NewName(names, dir, name) <==> dir in names && name !in names[dir] && NameOk(name)
  {
  }

  lemma EnteredKeepsFs(bs: nat, s: Snapshot, s': Snapshot, dir: nat, ino: nat, name: Name, names: Table)
    requires FsOk(bs, s, names) && EntryMade(bs, s, s', dir, ino, name)
    requires NewName(names, dir, name) && ino in s.live && 0 < ino < TWO32
    ensures FsOk(bs, s', Adding(names, dir, name, ino)) && s'.live == s.live
  {
    hide *;
    NewNameIs(names, dir, name);
    FsFacts(bs, s, names);
    NamesFacts(bs, s.disk, s.live, names);
    HoldingIs(bs, s.disk, dir, names[dir]);
    MadeReads(bs, s, s', dir, ino, name);
    EnterKeeps(bs, s, s', dir, ino, name, names);
    EnterKeepsDots(bs, s, s', dir, ino, name, names);
    EnterKeepsTypes(bs, s, s', dir, ino, name, names);
    FsFacts(bs, s', Adding(names, dir, name, ino));
  }

  lemma HoldingIs(bs: nat, d: Disk, dir: nat, entries: map<Name, nat>)
    requires BlockSizeOk(bs) && Holding(bs, d, dir, entries)
    ensures bs > 0 && DirOk(Content(bs, d, dir), bs) && DirMap(Content(bs, d, dir), bs) == entries
  {
  }

  // ---- create_directory_ext2 ----

  ghost predicate MadeDirectory(bs: nat, s: Snapshot, s': Snapshot, dir: nat, ino: nat, name: Name, mode: bv16) {
    exists s1, s2, s3 ::
      && Allocated(bs, s, s1, ino, mode) && EntryMade(bs, s1, s2, dir, ino, name)
      && EntryMade(bs, s2, s3, ino, ino, DOT) && EntryMade(bs, s3, s', ino, dir, DOTDOT)
  }

  function DotEntries(self: nat, parent: nat): map<Name, nat> {
    map[DOT := self, DOTDOT := parent]
  }

  lemma DotEntriesIs(self: nat, parent: nat, none: map<Name, nat>)
    requires none == map[]
    ensures none[DOT := self][DOTDOT := parent] == DotEntries(self, parent)
    ensures DotEntries(self, parent).Keys == {DOT, DOTDOT} && DotEntries(self, parent)[DOT] == self
      && DotEntries(self, parent)[DOTDOT] == parent
  {
  }

  /** The table after a mkdir. */
  function WithDirectory(names: Table, dir: nat, name: Name, ino: nat): Table
    requires dir in names && dir != ino
  {
    Adding(names, dir, name, ino)[ino := DotEntries(ino, dir)]
  }

  /** The content of a new directory after its two entries have been made. */
  lemma DotsMade(bs: nat, ino: nat, ft: nat, parent: nat, ft': nat)
    requires BlockSizeOk(bs) && 0 < ino < TWO32 && 0 < parent < TWO32 && ft < 0x100 && ft' < 0x100
    ensures DirOk([], bs) && DirOk(Inserted([], bs, ino, ft, DOT), bs)
    ensures Dots(Inserted(Inserted([], bs, ino, ft, DOT), bs, parent, ft', DOTDOT), ino, parent)
  {
    hide EntryAt, NameAt, Encode, DirOk, DirMap, PutRecord, NeedLen;
    EmptyDir(bs);
    DotNames();
    NeedOfTwo();
    InsertedOk([], bs, ino, ft, DOT);
    var c := Inserted([], bs, ino, ft, DOT);
    var e := DirEntry(ino, bs, 1, ft);
    FirstRoomEnd([], bs, 12);
    assert c == PutRecord([], 0, e, DOT);
    PutRecordReads([], 0, e, DOT);
    DirOkFacts(c, bs);
    assert FirstRoom(c, bs, 0, 12) == 0;
    var c1 := Overlay(c, 0, Encode(e.(recLen := 12)));
    var c' := PutRecord(c1, 12, DirEntry(parent, bs - 12, 2, ft'), DOTDOT);
    assert Inserted(c, bs, parent, ft', DOTDOT) == c';
    PutHeaderReads(c, 0, e.(recLen := 12));
    PutRecordReads(c1, 12, DirEntry(parent, bs - 12, 2, ft'), DOTDOT);
    HeadSame(c', c1, 0);
    NameSame(c, c', 0);
  }

  lemma DotNames()
    ensures NameOk(DOT) && NameOk(DOTDOT) && DOT != DOTDOT && |DOT| == 1 && |DOTDOT| == 2
  {
  }

  lemma MadeContent(bs: nat, s: Snapshot, s': Snapshot, dir: nat, ino: nat, name: Name)
    requires EntryMade(bs, s, s', dir, ino, name)
    ensures BlockSizeOk(bs) && DirOk(Content(bs, s.disk, dir), bs) && s'.live == s.live && ino < |s.disk.inodes|
    ensures Content(bs, s'.disk, dir) == Inserted(Content(bs, s.disk, dir), bs, ino, FileType(s.disk.inodes[ino].mode),
                                                  name)
    ensures OthersRead(bs, s.disk, s'.disk, s.live, dir)
  {
  }

  lemma OtherReads(bs: nat, d: Disk, d': Disk, live: set<nat>, dir: nat, i: nat)
    requires BlockSizeOk(bs) && OthersRead(bs, d, d', live, dir) && i in live && i != dir
    ensures Content(bs, d', i) == Content(bs, d, i)
  {
  }

  /** The steps of a mkdir on the table. */
  lemma MadeDirectoryNames(bs: nat, s1: Snapshot, s2: Snapshot, s3: Snapshot, s': Snapshot, dir: nat, ino: nat,
                           name: Name, names: Table)
    requires FsOk(bs, s1, names) && NewName(names, dir, name) && ino in s1.live && ino !in names
      && Content(bs, s1.disk, ino) == []
    requires BlockSizeOk(bs) && 0 < ino < TWO32 && 0 < dir < TWO32
    requires EntryMade(bs, s1, s2, dir, ino, name) && EntryMade(bs, s2, s3, ino, ino, DOT)
      && EntryMade(bs, s3, s', ino, dir, DOTDOT)
    ensures NamesOk(bs, s'.disk, s'.live, WithDirectory(names, dir, name, ino)) && s'.live == s1.live && dir in s1.live
    ensures HasTypes(bs, s'.disk, WithDirectory(names, dir, name, ino))
  {
    hide *;
    FsFacts(bs, s1, names);
    NewNameIs(names, dir, name);
    NamesFacts(bs, s1.disk, s1.live, names);
    DotNames();
    MadeContent(bs, s1, s2, dir, ino, name);
    MadeContent(bs, s2, s3, ino, ino, DOT);
    MadeContent(bs, s3, s', ino, dir, DOTDOT);
    var n1 := names[ino := map[]];
    NewTable(bs, s1.disk, s1.live, ino, names);
    NewKeepsTypes(bs, s1.disk, names, ino);
    EnterKeeps(bs, s1, s2, dir, ino, name, n1);
    EnterKeepsTypes(bs, s1, s2, dir, ino, name, n1);
    var n2 := Adding(n1, dir, name, ino);
    AddingIs(n1, dir, name, ino);
    EnterKeeps(bs, s2, s3, ino, ino, DOT, n2);
    EnterKeepsTypes(bs, s2, s3, ino, ino, DOT, n2);
    var n3 := Adding(n2, ino, DOT, ino);
    AddingIs(n2, ino, DOT, ino);
    EnterKeeps(bs, s3, s', ino, dir, DOTDOT, n3);
    EnterKeepsTypes(bs, s3, s', ino, dir, DOTDOT, n3);
    DirectoryTable(names, dir, name, ino);
  }

  lemma AddingIs(names: Table, dir: nat, name: Name, ino: nat)
    requires dir in names
    ensures Adding(names, dir, name, ino).Keys == names.Keys
    ensures Adding(names, dir, name, ino)[dir] == names[dir][name := ino]
    ensures forall k | k in names && k != dir :: Adding(names, dir, name, ino)[k] == names[k]
  {
  }

  lemma WithDirectoryIs(names: Table, dir: nat, name: Name, ino: nat)
    requires dir in names && dir != ino
    ensures WithDirectory(names, dir, name, ino) == Adding(names, dir, name, ino)[ino := DotEntries(ino, dir)]
  {
  }

  lemma DirectoryTable(names: Table, dir: nat, name: Name, ino: nat)
    requires dir in names && ino !in names
    ensures Adding(Adding(Adding(names[ino := map[]], dir, name, ino), ino, DOT, ino), ino, DOTDOT, dir)
      == WithDirectory(names, dir, name, ino)
  {
    hide DOT, DOTDOT;
    DotEntriesIs(ino, dir, map[]);
  }

  lemma MadeDirectoryDots(bs: nat, s1: Snapshot, s2: Snapshot, s3: Snapshot, s': Snapshot, dir: nat, ino: nat,
                          name: Name, names: Table)
    requires FsOk(bs, s1, names) && NewName(names, dir, name) && ino in s1.live && ino !in names
      && Content(bs, s1.disk, ino) == []
    requires BlockSizeOk(bs) && 0 < ino < TWO32 && 0 < dir < TWO32
    requires EntryMade(bs, s1, s2, dir, ino, name) && EntryMade(bs, s2, s3, ino, ino, DOT)
      && EntryMade(bs, s3, s', ino, dir, DOTDOT)
    ensures HasDots(bs, s'.disk, WithDirectory(names, dir, name, ino))
  {
    hide *;
    FsFacts(bs, s1, names);
    NewNameIs(names, dir, name);
    NamesFacts(bs, s1.disk, s1.live, names);
    MadeContent(bs, s1, s2, dir, ino, name);
    MadeContent(bs, s2, s3, ino, ino, DOT);
    MadeContent(bs, s3, s', ino, dir, DOTDOT);
    EnteredKeepsFs(bs, s1, s2, dir, ino, name, names);
    FsFacts(bs, s2, Adding(names, dir, name, ino));
    AddingIs(names, dir, name, ino);
    HasDotsAfter(bs, s2.disk, s3.disk, s2.live, Adding(names, dir, name, ino), Adding(names, dir, name, ino), ino);
    OtherReads(bs, s1.disk, s2.disk, s1.live, dir, ino);
    DotsMade(bs, ino, FileType(s2.disk.inodes[ino].mode), dir, FileType(s3.disk.inodes[dir].mode));
    DotNames();
    DotEntriesIs(ino, dir, map[]);
    DotsOfIs(bs, s'.disk, ino, DotEntries(ino, dir));
    WithDirectoryIs(names, dir, name, ino);
    NewDots(bs, s3.disk, s'.disk, s3.live, Adding(names, dir, name, ino), ino, DotEntries(ino, dir));
  }

  lemma DotsOfIs(bs: nat, d: Disk, dir: nat, entries: map<Name, nat>)
    requires BlockSizeOk(bs) && DOT in entries && entries[DOT] == dir && DOTDOT in entries
    requires Dots(Content(bs, d, dir), dir, entries[DOTDOT])
    ensures DotsOf(bs, d, dir, entries)
  {
  }

  lemma NewDots(bs: nat, d: Disk, d': Disk, live: set<nat>, names: Table, ino: nat, entries: map<Name, nat>)
    requires BlockSizeOk(bs) && HasDots(bs, d, names) && OthersRead(bs, d, d', live, ino) && ino !in names
    requires forall k | k in names :: k in live
    requires DotsOf(bs, d', ino, entries)
    ensures HasDots(bs, d', names[ino := entries])
  {
    hide Dots, Content;
    forall k | k in names
      ensures DotsOf(bs, d', k, names[k])
    {
      assert DotsOf(bs, d, k, names[k]);
    }
  }

  /** A made directory is found under its name and knows itself and its parent; links and names agree again. */
  lemma MadeDirectoryKeeps(bs: nat, s: Snapshot, s': Snapshot, dir: nat, ino: nat, name: Name, mode: bv16, names: Table)
    requires FsOk(bs, s, names) && MadeDirectory(bs, s, s', dir, ino, name, mode) && NewName(names, dir, name)
    requires ino < TWO32 && 0 < dir < TWO32
    ensures dir != ino && FsOk(bs, s', WithDirectory(names, dir, name, ino)) && s'.live == s.live + {ino}
  {
    var s1, s2, s3 :| Allocated(bs, s, s1, ino, mode) && EntryMade(bs, s1, s2, dir, ino, name)
      && EntryMade(bs, s2, s3, ino, ino, DOT) && EntryMade(bs, s3, s', ino, dir, DOTDOT);
    hide *;
    NewNameIs(names, dir, name);
    AllocatedKeepsFs(bs, s, s1, ino, mode, names);
    AllocatedIs(bs, s, s1, ino, mode);
    FsFacts(bs, s, names);
    MadeDirectoryNames(bs, s1, s2, s3, s', dir, ino, name, names);
    MadeDirectoryDots(bs, s1, s2, s3, s', dir, ino, name, names);
    FsFacts(bs, s', WithDirectory(names, dir, name, ino));
  }

  // ---- unlink_file_ext2 ----

  /** An unlinked name is gone, every other name leads where it led, and the file goes exactly with its last name. */
  lemma UnlinkedKeeps(bs: nat, s: Snapshot, s': Snapshot, dir: nat, name: Name, names: Table)
    requires FsOk(bs, s, names) && Unlinked(bs, s, s', dir, name) && OwnName(names, dir, name)
    ensures FsOk(bs, s', Removing(names, dir, name))
    ensures names[dir][name] !in s'.live <==> Refs(names, names[dir][name]) == {(dir, name)}
    ensures s'.live == s.live || s'.live == s.live - {names[dir][name]}
  {
    hide *;
    OwnNameIs(names, dir, name);
    FsFacts(bs, s, names);
    NamesFacts(bs, s.disk, s.live, names);
    NamedStays(bs, s, names, dir, name);
    RemoveKeepsDots(bs, s, s', dir, name, names);
    RemoveKeeps(bs, s, s', dir, name, names);
    RemovingIs(names, dir, name);
    RemoveKeepsTypes(bs, s, s', dir, name, names, Removing(names, dir, name));
    FsFacts(bs, s', Removing(names, dir, name));
    UnlinkedHolds(bs, s, s', dir, name, names[dir]);
    DroppedLive(bs, s, s', names[dir][name]);
    RefsHas(names, dir, name);
    OnlyOne(Refs(names, names[dir][name]), (dir, name));
  }

  lemma OwnNameIs(names: Table, dir: nat, name: Name)
    ensures OwnName(names, dir, name) <==> dir in names && name in names[dir] && name != DOT && name != DOTDOT
  {
  }

  lemma OnlyOne(s: set<(nat, Name)>, x: (nat, Name))
    requires x in s
    ensures |s| == 1 <==> s == {x}
  {
    assert s == (s - {x}) + {x};
    assert |s - {x}| == 0 <==> s - {x} == {};
  }

  lemma DroppedLive(bs: nat, s: Snapshot, s': Snapshot, t: nat)
    requires LinkDropped(bs, s, s', t)
    ensures s'.live == s.live || s'.live == s.live - {t}
    ensures s'.live <= s.live
  {
  }

  lemma NamedStays(bs: nat, s: Snapshot, names: Table, dir: nat, name: Name)
    requires FsOk(bs, s, names) && dir in names && name in names[dir] && (dir, name) != (names[dir][name], DOT)
    ensures names[dir][name] in s.live && names[dir][name] < |s.disk.inodes|
      && s.disk.inodes[names[dir][name]].links > 0
    ensures s.disk.inodes[names[dir][name]].links == 1 ==> names[dir][name] !in names
  {
    hide *;
    FsFacts(bs, s, names);
    NamesFacts(bs, s.disk, s.live, names);
    if names[dir][name] in names { DotsIn(bs, s.disk, names, names[dir][name]); }
    DirectoryStays(bs, s.disk, s.live, names, dir, name);
  }

  // ---- delete_directory_ext2 ----

  ghost predicate RemovedDirectory(bs: nat, s: Snapshot, s': Snapshot, dir: nat, name: Name, a: nat) {
    exists s1, s2, s3 ::
      && Unlinked(bs, s, s1, a, DOTDOT) && Unlinked(bs, s1, s2, a, DOT) && Unlinked(bs, s2, s3, dir, name)
      && s' == s3.(groups := s'.groups)
  }

  /** A directory of exactly two records, which rmdir may take away. */
  ghost predicate Removable(names: Table, dir: nat, name: Name) {
    && OwnName(names, dir, name) && names[dir][name] in names && names[dir][name] != dir
    && names[names[dir][name]].Keys == {DOT, DOTDOT}
  }

  lemma RemovableIs(names: Table, dir: nat, name: Name)
    requires Removable(names, dir, name)
    ensures OwnName(names, dir, name) && dir in names && name in names[dir] && names[dir][name] in names
      && names[dir][name] != dir
    ensures names[names[dir][name]].Keys == {DOT, DOTDOT} && name != DOT && name != DOTDOT
  {
  }

  /** The first step of an rmdir: ".." goes. The directory is still named by its parent and by its own ".". */
  lemma ParentLinkGone(bs: nat, s: Snapshot, s1: Snapshot, a: nat, dir: nat, name: Name, names: Table)
    requires FsOk(bs, s, names) && Removable(names, dir, name) && a == names[dir][name]
    requires Unlinked(bs, s, s1, a, DOTDOT)
    ensures NamesOk(bs, s1.disk, s1.live, Removing(names, a, DOTDOT)) && Removing(names, a, DOTDOT)[a] == map[DOT := a]
    ensures a in s1.live && a < |s1.disk.inodes| && s1.disk.inodes[a].links > 1
    ensures BlockSizeOk(bs) && OthersRead(bs, s.disk, s1.disk, s1.live, a) && HasDots(bs, s1.disk, names - {a})
    ensures HasTypes(bs, s1.disk, Removing(names, a, DOTDOT))
  {
    hide *;
    RemovableIs(names, dir, name);
    OwnNameIs(names, dir, name);
    DotNames();
    FsFacts(bs, s, names);
    NamesFacts(bs, s.disk, s.live, names);
    DotsIn(bs, s.disk, names, a);
    FirstIsDot(Content(bs, s.disk, a), a, names[a][DOTDOT], DOTDOT);
    NamedStays(bs, s, names, a, DOTDOT);
    RemoveKeeps(bs, s, s1, a, DOTDOT, names);
    RemovingIs(names, a, DOTDOT);
    var n1 := Removing(names, a, DOTDOT);
    assert n1[a] == map[DOT := a];
    RemoveKeepsTypes(bs, s, s1, a, DOTDOT, names, n1);
    NamesFacts(bs, s1.disk, s1.live, n1);
    RefsTwo(n1, a, DOT, dir, name);
    UnlinkedHolds(bs, s, s1, a, DOTDOT, names[a]);
    HasDotsAfter(bs, s.disk, s1.disk, s1.live, names, names - {a}, a);
  }

  /** The second step: "." goes, and what is left is no directory any more. */
  lemma SelfLinkGone(bs: nat, s1: Snapshot, s2: Snapshot, a: nat, dir: nat, name: Name, names: Table)
    requires NamesOk(bs, s1.disk, s1.live, names) && BlockSizeOk(bs) && a in names && names[a] == map[DOT := a]
    requires a < |s1.disk.inodes| && s1.disk.inodes[a].links > 1
    requires Unlinked(bs, s1, s2, a, DOT) && HasDots(bs, s1.disk, names - {a}) && HasTypes(bs, s1.disk, names)
    ensures FsOk(bs, s2, names - {a}) && OthersRead(bs, s1.disk, s2.disk, s2.live, a)
  {
    hide *;
    NamesFacts(bs, s1.disk, s1.live, names);
    DismantleKeeps(bs, s1, s2, a, DOT, names);
    UnlinkedHolds(bs, s1, s2, a, DOT, names[a]);
    NamesFacts(bs, s2.disk, s2.live, names - {a});
    HasDotsAfter(bs, s1.disk, s2.disk, s2.live, names - {a}, names - {a}, a);
    LinkDroppedModes(bs, s1, s2, names[a][DOT]);
    HasTypesAfter(bs, s1.disk, s2.disk, s2.live, names, names - {a}, a);
    FsFacts(bs, s2, names - {a});
  }

  /** A removed directory's name is gone and so are its dots; its inode goes unless some other directory still names
      it. */
  lemma RemovedDirectoryKeeps(bs: nat, s: Snapshot, s': Snapshot, dir: nat, name: Name, a: nat, names: Table)
    requires FsOk(bs, s, names) && Removable(names, dir, name) && a == names[dir][name]
    requires RemovedDirectory(bs, s, s', dir, name, a)
    ensures dir in names - {a} && FsOk(bs, s', Removing(names - {a}, dir, name))
    ensures a !in s'.live <==> Refs(names - {a}, a) == {(dir, name)}
  {
    hide FsOk, Removable, Unlinked, Removing, Refs;
    var s1, s2, s3 :| Unlinked(bs, s, s1, a, DOTDOT) && Unlinked(bs, s1, s2, a, DOT) && Unlinked(bs, s2, s3, dir, name)
      && s' == s3.(groups := s'.groups);
    RemovedInSteps(bs, s, s1, s2, s3, dir, name, a, names);
    FsFacts(bs, s3, Removing(names - {a}, dir, name));
    FsFacts(bs, s', Removing(names - {a}, dir, name));
  }

  lemma RemovedInSteps(bs: nat, s: Snapshot, s1: Snapshot, s2: Snapshot, s3: Snapshot, dir: nat, name: Name, a: nat,
                       names: Table)
    requires FsOk(bs, s, names) && Removable(names, dir, name) && a == names[dir][name]
    requires Unlinked(bs, s, s1, a, DOTDOT) && Unlinked(bs, s1, s2, a, DOT) && Unlinked(bs, s2, s3, dir, name)
    ensures dir in names - {a} && FsOk(bs, s3, Removing(names - {a}, dir, name))
    ensures a !in s3.live <==> Refs(names - {a}, a) == {(dir, name)}
  {
    hide *;
    RemovableIs(names, dir, name);
    OwnNameIs(names, dir, name);
    ParentLinkGone(bs, s, s1, a, dir, name, names);
    RemovingIs(names, a, DOTDOT);
    assert Removing(names, a, DOTDOT) - {a} == names - {a};
    SelfLinkGone(bs, s1, s2, a, dir, name, Removing(names, a, DOTDOT));
    OwnNameIs(names - {a}, dir, name);
    UnlinkedKeeps(bs, s2, s3, dir, name, names - {a});
  }

  // ---- runs ----

  /** Strand is a create or mkdir whose name is too long: it leaves an inode without a name. */
  datatype Operation =
    | Create(dir: nat, name: Name, ino: nat, mode: bv16)
    | MakeDirectory(dir: nat, name: Name, ino: nat, mode: bv16)
    | Strand(ino: nat, mode: bv16)
    | RemoveName(dir: nat, name: Name)
    | RemoveDirectory(dir: nat, name: Name)
    | Write(ino: nat)

  /** One operation takes volume s with names table `names` to s' with names'. */
  ghost predicate Happens(bs: nat, op: Operation, s: Snapshot, names: Table, s': Snapshot, names': Table) {
    match op
    case Create(dir, name, ino, mode) =>
      ino < TWO32 && NewName(names, dir, name) && Created(bs, s, s', dir, ino, name, mode)
        && names' == Adding(names, dir, name, ino)
    case MakeDirectory(dir, name, ino, mode) =>
      && ino < TWO32 && 0 < dir < TWO32 && dir != ino && NewName(names, dir, name)
      && MadeDirectory(bs, s, s', dir, ino, name, mode) && names' == WithDirectory(names, dir, name, ino)
    case Strand(ino, mode) =>
      Allocated(bs, s, s', ino, mode) && names' == names
    case RemoveName(dir, name) =>
      OwnName(names, dir, name) && Unlinked(bs, s, s', dir, name) && names' == Removing(names, dir, name)
    case RemoveDirectory(dir, name) =>
      && Removable(names, dir, name) && RemovedDirectory(bs, s, s', dir, name, names[dir][name])
      && dir in names - {names[dir][name]} && names' == Removing(names - {names[dir][name]}, dir, name)
    case Write(ino) =>
      BlockSizeOk(bs) && ino in s.live && ino !in names && OnlyContent(bs, s.disk, s'.disk, s.live, ino)
        && s'.live == s.live && names' == names
  }

  lemma OperationKeeps(bs: nat, op: Operation, s: Snapshot, names: Table, s': Snapshot, names': Table)
    requires FsOk(bs, s, names) && Happens(bs, op, s, names, s', names')
    ensures FsOk(bs, s', names')
  {
    hide FsOk, Created, MadeDirectory, Allocated, Unlinked, RemovedDirectory, Removable, OwnName, NewName, OnlyContent,
      Adding, Removing, WithDirectory, Content;
    match op
    case Create(dir, name, ino, mode) => CreatedKeeps(bs, s, s', dir, ino, name, mode, names);
    case MakeDirectory(dir, name, ino, mode) => MadeDirectoryKeeps(bs, s, s', dir, ino, name, mode, names);
    case Strand(ino, mode) => AllocatedKeepsFs(bs, s, s', ino, mode, names);
    case RemoveName(dir, name) => UnlinkedKeeps(bs, s, s', dir, name, names);
    case RemoveDirectory(dir, name) =>
      RemovableIs(names, dir, name);
      RemovedDirectoryKeeps(bs, s, s', dir, name, names[dir][name], names);
    case Write(ino) =>
      FsFacts(bs, s, names);
      WriteKeeps(bs, s.disk, s'.disk, s.live, ino, names);
      WriteKeepsTypes(bs, s.disk, s'.disk, s.live, ino, names);
      FsFacts(bs, s', names');
  }

  /** Over every run: in each state reached, every directory maps exactly the names of the table, every name leads to a
      live inode, every live inode's link count is the number of directory entries that name it, and every live record
      tells the type of its inode's mode. */
  lemma {:induction false} RunKeeps(bs: nat, ops: seq<Operation>, states: seq<(Snapshot, Table)>, k: nat)
    requires |states| == |ops| + 1 && k < |states| && FsOk(bs, states[0].0, states[0].1)
    requires forall j | 0 <= j < |ops| ::
      Happens(bs, ops[j], states[j].0, states[j].1, states[j + 1].0, states[j + 1].1)
    ensures FsOk(bs, states[k].0, states[k].1)
    ensures forall i | i in states[k].0.live ::
      i < |states[k].0.disk.inodes| && states[k].0.disk.inodes[i].links == |Refs(states[k].1, i)|
    ensures BlockSizeOk(bs) && HasTypes(bs, states[k].0.disk, states[k].1)
    decreases k
  {
    hide FsOk, Happens;
    if k > 0 {
      RunKeeps(bs, ops, states, k - 1);
      OperationKeeps(bs, ops[k - 1], states[k - 1].0, states[k - 1].1, states[k].0, states[k].1);
    }
    FsFacts(bs, states[k].0, states[k].1);
    NamesFacts(bs, states[k].0.disk, states[k].0.live, states[k].1);
  }
}
