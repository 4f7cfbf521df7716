/** parse_path_ext2: a path is resolved by looking its components up one after the other. */
module Path {
  import opened Bytes
  import opened Tree
  import opened Contents
  import opened Volumes
  import opened FileHandles
  import opened DirRecords
  import opened Directories
  import opened Names
  import opened Namespace
  import opened Tokenizer

  datatype Option<T> = None | Some(value: T)

  const SLASH: byte := 47

  /** Where the components lead from `start`: a left fold of directory lookups. Only a directory can be looked into. */
  ghost function Resolve(names: Table, start: nat, components: seq<Name>): Option<nat>
    decreases |components|
  {
    if components == [] then Some(start)
    else if start !in names || components[0] !in names[start] then None
    else Resolve(names, names[start][components[0]], components[1..])
  }

  /** Resolving in two stages is resolving at once. */
  lemma {:induction false} ResolveSplit(names: Table, start: nat, first: seq<Name>, rest: seq<Name>)
    ensures Resolve(names, start, first + rest)
         == match Resolve(names, start, first) case None => None case Some(i) => Resolve(names, i, rest)
    decreases |first|
  {
    if first == [] {
      assert first + rest == rest;
    } else {
      assert (first + rest)[1..] == first[1..] + rest;
      if start in names && first[0] in names[start] {
        ResolveSplit(names, names[start][first[0]], first[1..], rest);
      }
    }
  }

  /** Whatever a name leads to is a regular file or a directory of the table. */
  ghost predicate Kinds(d: Disk, names: Table) {
    forall dir, n | dir in names && n in names[dir] ::
      names[dir][n] < |d.inodes| && (IsReg(d.inodes[names[dir][n]].mode) <==> names[dir][n] !in names)
  }

  /** The components that are looked up: all, or all but the last. */
  function Goal(components: seq<Name>, previous: bool): seq<Name> {
    if previous && components != [] then components[..|components| - 1] else components
  }

  /** Looking up all but the last leads to the directory in which the last component has to be looked for. */
  lemma GoalIsParent(names: Table, start: nat, components: seq<Name>)
    requires components != []
    ensures Goal(components, false) == components
    ensures Resolve(names, start, components) ==
      match Resolve(names, start, Goal(components, true))
        case None => None
        case Some(dir) => if dir !in names then None else
                            var last := components[|components| - 1];
                            if last in names[dir] then Some(names[dir][last]) else None
  {
    var n := |components| - 1;
    assert components == components[..n] + [components[n]];
    ResolveSplit(names, start, components[..n], [components[n]]);
  }

  /** copy_file_ext2. */
  method CopyHandle(v: Volume, src: FileHandle) returns (h: FileHandle)
    requires v.Sound() && Open(v, src)
    ensures fresh(h) && Open(v, h) && h.ino == src.ino && h.it.offset == src.it.offset
  {
    hide *;
    SoundFacts(v);
    OpenFacts(v, src);
    h := new FileHandle();
    h.ino, h.inode, h.pbgd, h.pbgdIndex := src.ino, src.inode, src.pbgd, src.pbgdIndex;
    CursorSmall(v.geo.blockSize, v.D(), src.ino, src.it);
    DiskOfIs(v, h);
    DiskOfIs(v, src);
    CursorInit(v, h, src.it.offset);
    DiskOfIs(v, h);
    OpenIntro(v, h);
  }

  lemma CursorSmall(bs: nat, d: Disk, ino: nat, it: Cursor)
    requires BlockSizeOk(bs) && CursorOk(bs, d, ino, it)
    ensures it.offset < TWO32
  {
  }

  /** The component strings that parse_buf leaves behind. */
  method Components(path: seq<byte>) returns (components: seq<Name>)
    requires 0 !in path
    ensures TokensOf(path, [SLASH], components)
    ensures forall k | 0 <= k < |components| :: components[k] != []
  {
    var copy := new byte[|path| + 1](i requires 0 <= i <= |path| => if i < |path| then path[i] else 0);
    assert copy[..|path|] == path;
    assert forall k | 0 <= k < |path| :: path[k] in path;
    var argv, ends, stop := ParseBuf(copy, |path|, [SLASH], |path|);
    var b := copy[..];
    components := seq(|argv|, k requires 0 <= k < |argv| => CString(b, argv[k]));
    assert |argv| == |ends| by { SameLengths(path, [SLASH], argv, ends); }
    assert components == Pieces(path, argv, ends);
    TokensClean(path, [SLASH], components);
  }

  lemma GoalIs(components: seq<Name>, previous: bool)
    requires previous ==> components != []
    ensures Goal(components, previous) == components[..if previous then |components| - 1 else |components|]
  {
  }

  lemma ResolveStep(names: Table, start: nat, components: seq<Name>, i: nat, goal: nat)
    requires i < goal <= |components|
    ensures Resolve(names, start, components[i..goal])
         == if start !in names || components[i] !in names[start] then None
            else Resolve(names, names[start][components[i]], components[i + 1..goal])
  {
    assert components[i..goal][1..] == components[i + 1..goal];
  }

  lemma ResolveDone(names: Table, start: nat, components: seq<Name>, i: nat, goal: nat)
    requires i <= goal <= |components|
    ensures i == goal ==> Resolve(names, start, components[i..goal]) == Some(start)
    ensures i < goal && start !in names ==> Resolve(names, start, components[i..goal]) == None
  {
  }

  lemma KindOf(d: Disk, names: Table, dir: nat, name: Name)
    requires Kinds(d, names) && dir in names && name in names[dir]
    ensures names[dir][name] < |d.inodes| && (IsReg(d.inodes[names[dir][name]].mode) <==> names[dir][name] !in names)
  {
  }

  /** parse_path_ext2: succeeds exactly when the left fold of lookups over the path's components is defined, and returns
      a handle on the inode it leads to. */
  method ParsePath(v: Volume, pwd: FileHandle, path: seq<byte>, previous: bool, ghost names: Table)
    returns (ok: bool, file: FileHandle, last: Name, ghost components: seq<Name>)
    requires Mounted(v, names) && Open(v, pwd) && pwd.ino in names && Kinds(v.D(), names)
    requires 0 !in path && (previous ==> exists c :: c in path && c != SLASH)
    modifies v`inodes
    ensures Mounted(v, names) && Open(v, pwd) && v.D() == old(v.D())
    ensures TokensOf(path, [SLASH], components) && (components != [] ==> last == components[|components| - 1])
    ensures ok <==> Resolve(names, pwd.ino, Goal(components, previous)).Some?
    ensures ok ==> Open(v, file) && Some(file.ino) == Resolve(names, pwd.ino, Goal(components, previous))
  {
    hide *;
    MountedFacts(v, names);
    OpenFacts(v, pwd);
    var argv := Components(path);
    components := argv;
    NotOnlySlashes(path, components, previous);
    last := if |argv| > 0 then argv[|argv| - 1] else [];
    file := CopyHandle(v, pwd);
    var i := 0;
    var goal := if previous then |argv| - 1 else |argv|;
    GoalIs(components, previous);
    assert components[0..goal] == Goal(components, previous);
    ok := true;
    while i < goal
      invariant 0 <= i <= goal <= |components| && Mounted(v, names) && v.D() == old(v.D()) && v.inodes == old(v.inodes)
      invariant Open(v, file) && fresh(file) && file.ino in names
      invariant Resolve(names, pwd.ino, Goal(components, previous)) == Resolve(names, file.ino, components[i..goal])
    {
      MountedFacts(v, names);
      DirectoryOpen(v, file, names);
      ResolveStep(names, file.ino, components, i, goal);
      BytesIs(v, file);
      var found, e, o, p := LookupName(v, file, argv[i]);
      OpenDirOpen(v, file);
      BytesIs(v, file);
      SnapIs(v);
      MountedIs(v, names);
      if !found {
        ok := false;
        return;
      }
      MountedFacts(v, names);
      NamesFacts(v.geo.blockSize, v.D(), v.live, names);
      KindOf(v.D(), names, file.ino, argv[i]);
      ReadInode(v, file, e.inode);
      OpenFacts(v, file);
      i := i + 1;
      if IsReg(file.inode.mode) {
        break;
      }
    }
    ResolveDone(names, file.ino, components, i, goal);
    ok := i >= goal;
  }

  lemma NotOnlySlashes(path: seq<byte>, components: seq<Name>, previous: bool)
    requires TokensOf(path, [SLASH], components) && (previous ==> exists c :: c in path && c != SLASH)
    ensures previous ==> components != []
  {
    if previous {
      var c :| c in path && c != SLASH;
      var x :| 0 <= x < |path| && path[x] == c;
      SomeToken(path, [SLASH], components, x);
    }
  }
}
