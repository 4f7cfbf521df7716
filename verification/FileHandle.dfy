/** An open file: the in-memory inode and the cursor that caches the path of index blocks to the current offset. */
module FileHandles {
  import opened Bytes
  import opened BlockIndex
  import opened Layout
  import opened Tree
  import opened Contents
  import opened Volumes

  /** blk_iterator_t. */
  datatype Cursor = Cursor(
    mode: nat,
    index: seq<nat>,
    blks: seq<Block>,
    valid: seq<bool>,
    blksBlk: seq<nat>,
    offset: nat)

  /** The cursor caches the walk from inode `ino` of disk d to its offset: level by level the index block's number,
      0 where it is missing, and its contents where it is not. */
  ghost predicate CursorOk(bs: nat, d: Disk, ino: nat, it: Cursor)
    requires BlockSizeOk(bs)
  {
    && it.offset < TWO32
    && |it.blks| == |it.valid| == |it.blksBlk| == 4
    && it.mode == ModeOf(bs / 4, it.offset / bs)
    && it.index == IndexOf(bs / 4, it.offset / bs)
    && (it.mode == 0 ==> it.blksBlk[0] == SlotAt(d, ino, it.index[0]) && it.valid[0] == (it.blksBlk[0] != 0))
    && (forall t | 1 <= t <= it.mode :: LevelOk(d, ino, it, t))
  }

  ghost predicate LevelOk(d: Disk, ino: nat, it: Cursor, t: nat)
    requires |it.index| == |it.blks| == |it.valid| == |it.blksBlk| == 4 && 1 <= t <= 3
  {
    && it.blksBlk[t] == At(d, Chain(ino, it.index, t - 1))
    && it.valid[t] == (it.blksBlk[t] != 0)
    && (it.blksBlk[t] != 0 ==> it.blksBlk[t] < |d.blocks| && it.blks[t] == d.blocks[it.blksBlk[t]])
  }

  class FileHandle {
    var ino: nat
    var inode: Inode
    var pbgd: GroupDesc
    var pbgdIndex: nat
    var it: Cursor

    /** init_file_ext2: a handle that is not tied to an inode yet. */
    constructor ()
      ensures ino == 0 && inode == NO_INODE
    {
      ino, inode, pbgd, pbgdIndex := 0, NO_INODE, GroupDesc(0, 0, 0), 0;
      it := Cursor(0, [0, 0, 0, 0], [[], [], [], []], [false, false, false, false], [0, 0, 0, 0], 0);
    }
  }

  /** The disk as this handle sees it: the in-memory inode stands in for its record in the inode table. */
  ghost function DiskOf(v: Volume, h: FileHandle): Disk
    reads v`blocks, v`inodes, h`ino, h`inode
  {
    if h.ino < |v.inodes| then Disk(v.blocks, v.inodes[h.ino := h.inode]) else v.D()
  }

  lemma DiskOfIs(v: Volume, h: FileHandle)
    requires h.ino < |v.inodes|
    ensures DiskOf(v, h) == Disk(v.blocks, v.inodes[h.ino := h.inode])
    ensures v.D() == Disk(v.blocks, v.inodes)
  {
  }

  /** A handle on a live inode, in step with the device. */
  ghost predicate Open(v: Volume, h: FileHandle)
    reads v, h
  {
    && v.geo.Ok()
    && h.ino in v.live && h.ino < |v.inodes| && v.geo.IsInode(h.ino)
    && h.inode == v.inodes[h.ino]
    && h.pbgdIndex == v.geo.InodeGroup(h.ino) < v.geo.Groups()
    && CursorOk(v.geo.blockSize, v.D(), h.ino, h.it)
  }

  lemma {:induction false} ChainMissing(d: Disk, ino: nat, index: seq<nat>, i: nat, k: nat)
    requires i <= k < |index| && At(d, Chain(ino, index, i)) == 0
    ensures At(d, Chain(ino, index, k)) == 0
  {
    if i < k { ChainMissing(d, ino, index, i, k - 1); }
  }

  lemma {:induction false} ChainSame(ino: nat, index: seq<nat>, index': seq<nat>, k: nat)
    requires k < |index| && k < |index'| && forall t | 0 <= t <= k :: index[t] == index'[t]
    ensures Chain(ino, index, k) == Chain(ino, index', k)
  {
    if k > 0 { ChainSame(ino, index, index', k - 1); }
  }

  /** The loop of blk_iterator_init: reads the index blocks of the path one level after the other, up to the first
      missing one. `first` is the number of the topmost index block. */
  method LoadPath(v: Volume, ghost d: Disk, ghost ino: nat, index: seq<nat>, mode: nat, first: nat)
    returns (blks: seq<Block>, valid: seq<bool>, blksBlk: seq<nat>)
    requires |index| == 4 && 1 <= mode <= 3 && d.blocks == v.blocks
    requires first == At(d, Chain(ino, index, 0))
    requires forall t: nat | t < mode && At(d, Chain(ino, index, t)) != 0 :: At(d, Chain(ino, index, t)) < |d.blocks|
    ensures |blks| == |valid| == |blksBlk| == 4
    ensures forall t | 1 <= t <= mode :: LevelOk(d, ino, Cursor(mode, index, blks, valid, blksBlk, 0), t)
  {
    valid := [false, false, false, false];
    blks := [[], [], [], []];
    blksBlk := [0, first, 0, 0];
    var j := 1;
    LoadStart(d, ino, Cursor(mode, index, blks, valid, blksBlk, 0));
    hide Loaded, At, Chain, Link;
    while j <= mode && blksBlk[j] != 0
      invariant 1 <= j <= mode + 1
      invariant |valid| == |blks| == |blksBlk| == 4
      invariant Loaded(d, ino, Cursor(mode, index, blks, valid, blksBlk, 0), j)
      decreases 4 - j
    {
      LoadRound(d, ino, Cursor(mode, index, blks, valid, blksBlk, 0), j);
      valid := valid[j := true];
      blks := blks[j := v.blocks[blksBlk[j]]];
      j := j + 1;
      if j > 3 {
        break;
      }
      blksBlk := blksBlk[j := Link(blks[j - 1], index[j - 1])];
    }
    PathLoaded(d, ino, Cursor(mode, index, blks, valid, blksBlk, 0), j);
  }

  /** The levels loaded so far, and nothing behind them where the last link was 0. */
  ghost predicate Loaded(d: Disk, ino: nat, it: Cursor, j: nat)
    requires |it.index| == |it.blks| == |it.valid| == |it.blksBlk| == 4 && it.mode <= 3 && 1 <= j
  {
    && (j <= it.mode ==> it.blksBlk[j] == At(d, Chain(ino, it.index, j - 1)))
    && (forall t | j < t <= it.mode :: it.blksBlk[t] == 0)
    && (forall t | j <= t <= it.mode :: !it.valid[t])
    && (forall t | 1 <= t < j && t <= it.mode :: it.blksBlk[t] != 0 && LevelOk(d, ino, it, t))
  }

  lemma LoadStart(d: Disk, ino: nat, it: Cursor)
    requires |it.index| == |it.blks| == |it.valid| == |it.blksBlk| == 4 && it.mode <= 3
    requires it.valid == [false, false, false, false]
    requires it.blksBlk == [0, At(d, Chain(ino, it.index, 0)), 0, 0]
    ensures Loaded(d, ino, it, 1)
  {
  }

  /** A level and the number of the next one, as one round of the loop reads them in. */
  function NextLevel(d: Disk, it: Cursor, j: nat): Cursor
    requires |it.index| == |it.blks| == |it.valid| == |it.blksBlk| == 4 && 1 <= j <= 3
    requires it.blksBlk[j] < |d.blocks|
  {
    var block := d.blocks[it.blksBlk[j]];
    it.(valid := it.valid[j := true], blks := it.blks[j := block],
        blksBlk := if j == 3 then it.blksBlk else it.blksBlk[j + 1 := Link(block, it.index[j])])
  }

  lemma LoadRound(d: Disk, ino: nat, it: Cursor, j: nat)
    requires |it.index| == |it.blks| == |it.valid| == |it.blksBlk| == 4 && it.mode <= 3 && 1 <= j <= it.mode
    requires Loaded(d, ino, it, j) && it.blksBlk[j] != 0
    requires forall t: nat | t < it.mode && At(d, Chain(ino, it.index, t)) != 0 ::
      At(d, Chain(ino, it.index, t)) < |d.blocks|
    ensures it.blksBlk[j] < |d.blocks| && Loaded(d, ino, NextLevel(d, it, j), j + 1)
  {
    hide Chain, Link;
    var it' := NextLevel(d, it, j);
    assert it.blksBlk[j] == At(d, Chain(ino, it.index, j - 1));
    assert j < it.mode ==> it'.blksBlk[j + 1] == At(d, Chain(ino, it.index, j)) by { ChainNext(d, ino, it.index, j); }
    hide At;
    assert LevelOk(d, ino, it', j);
    forall t | 1 <= t < j + 1 && t <= it'.mode
      ensures it'.blksBlk[t] != 0 && LevelOk(d, ino, it', t)
    {
      if t < j { assert LevelOk(d, ino, it, t); }
    }
  }

  lemma ChainNext(d: Disk, ino: nat, index: seq<nat>, j: nat)
    requires 0 < j < |index|
    ensures At(d, Chain(ino, index, j)) == LinkAt(d, At(d, Chain(ino, index, j - 1)), index[j])
  {
  }

  lemma PathLoaded(d: Disk, ino: nat, it: Cursor, j: nat)
    requires |it.index| == |it.blks| == |it.valid| == |it.blksBlk| == 4 && it.mode <= 3 && 1 <= j
    requires Loaded(d, ino, it, j) && (j <= it.mode ==> it.blksBlk[j] == 0)
    ensures forall t | 1 <= t <= it.mode :: LevelOk(d, ino, it, t)
  {
    hide At, Chain;
    forall t | 1 <= t <= it.mode
      ensures LevelOk(d, ino, it, t)
    {
      if t > j { ChainMissing(d, ino, it.index, j - 1, t - 1); }
    }
  }

  /** blk_iterator_init. */
  method CursorInit(v: Volume, h: FileHandle, offset: nat)
    requires v.geo.Ok() && offset < TWO32
    requires h.ino < |v.inodes| && h.ino in v.live && |h.inode.block| == SLOTS
    requires TreeInv(v.LinksPerBlock(), DiskOf(v, h), v.live, v.owner)
    modifies h`it
    ensures h.it.offset == offset
    ensures CursorOk(v.geo.blockSize, DiskOf(v, h), h.ino, h.it)
  {
    hide Geometry.Ok, ModeOf, Limit, IndexOf, Reconstruct, TreeInv, At;
    var bs := v.geo.blockSize;
    assert BlockSizeOk(bs) by { GeometryBlockSize(v.geo); }
    ghost var d := DiskOf(v, h);
    var index, mode := GetIndirectBlocks(bs, offset);
    ghost var n := offset / bs;
    assert n < Limit(bs / 4, 3) by { OffsetsReachable(bs, offset); }
    IndexInRange(bs / 4, n);
    var b := h.inode.block[index[0]];
    assert SlotAt(d, h.ino, index[0]) == b;
    if mode == 0 {
      h.it := Cursor(0, index, [[], [], [], []], [b != 0, false, false, false], [b, 0, 0, 0], offset);
    } else {
      forall t: nat | t < mode && At(d, Chain(h.ino, index, t)) != 0
        ensures At(d, Chain(h.ino, index, t)) < |d.blocks|
      {
        ChainBlock(v, d, h.ino, n, t);
      }
      assert At(d, Chain(h.ino, index, 0)) == b by { ChainStart(d, h.ino, index); }
      var blks, valid, blksBlk := LoadPath(v, d, h.ino, index, mode, b);
      h.it := Cursor(mode, index, blks, valid, blksBlk, offset);
      forall t | 1 <= t <= mode
        ensures LevelOk(d, h.ino, h.it, t)
      {
        assert LevelOk(d, h.ino, Cursor(mode, index, blks, valid, blksBlk, 0), t);
      }
    }
  }

  lemma ChainStart(d: Disk, ino: nat, index: seq<nat>)
    requires |index| == 4
    ensures At(d, Chain(ino, index, 0)) == SlotAt(d, ino, index[0])
  {
  }

  lemma ChainBlock(v: Volume, d: Disk, ino: nat, n: nat, j: nat)
    requires v.geo.Ok() && ino in v.live && TreeInv(v.LinksPerBlock(), d, v.live, v.owner)
    requires n < Limit(v.LinksPerBlock(), 3) && j <= ModeOf(v.LinksPerBlock(), n)
    requires At(d, Chain(ino, IndexOf(v.LinksPerBlock(), n), j)) != 0
    ensures At(d, Chain(ino, IndexOf(v.LinksPerBlock(), n), j)) < |d.blocks|
    ensures At(d, Chain(ino, IndexOf(v.LinksPerBlock(), n), j)) in v.owner
    ensures v.owner[At(d, Chain(ino, IndexOf(v.LinksPerBlock(), n), j))] == Chain(ino, IndexOf(v.LinksPerBlock(), n), j)
  {
    PathOk(v.LinksPerBlock(), ino, n, j);
    assert Place(v.LinksPerBlock(), v.live, Chain(ino, IndexOf(v.LinksPerBlock(), n), j));
  }

  /** blk_iterator_get_blk_index. */
  function BlkIndex(it: Cursor): nat
    requires |it.blks| == |it.valid| == |it.blksBlk| == |it.index| == 4 && it.mode <= 3
  {
    if it.mode == 0 then if it.valid[0] then it.blksBlk[0] else 0
    else if it.valid[it.mode] then Link(it.blks[it.mode], it.index[it.mode]) else 0
  }

  /** A coherent cursor answers what a walk from the inode at the current offset answers. */
  lemma CursorIsWalk(bs: nat, d: Disk, ino: nat, it: Cursor)
    requires BlockSizeOk(bs) && CursorOk(bs, d, ino, it)
    ensures BlkIndex(it) == BlockOf(bs, d, ino, it.offset / bs)
    ensures forall t, u | 1 <= t <= u <= it.mode && it.blksBlk[u] != 0 :: it.blksBlk[t] != 0
  {
    OffsetsReachable(bs, it.offset);
    var n := it.offset / bs;
    if it.mode > 0 {
      assert LevelOk(d, ino, it, it.mode);
    }
    forall t, u | 1 <= t <= u <= it.mode && it.blksBlk[u] != 0
      ensures it.blksBlk[t] != 0
    {
      assert LevelOk(d, ino, it, t) && LevelOk(d, ino, it, u);
      if it.blksBlk[t] == 0 { ChainMissing(d, ino, it.index, t - 1, u - 1); }
    }
  }

  /** blk_iterator_next. */
  method CursorNext(v: Volume, h: FileHandle, offset: nat)
    requires v.geo.Ok() && offset < TWO32
    requires h.ino < |v.inodes| && h.ino in v.live && |h.inode.block| == SLOTS
    requires TreeInv(v.LinksPerBlock(), DiskOf(v, h), v.live, v.owner)
    requires CursorOk(v.geo.blockSize, DiskOf(v, h), h.ino, h.it)
    modifies h`it
    ensures h.it.offset == offset
    ensures CursorOk(v.geo.blockSize, DiskOf(v, h), h.ino, h.it)
  {
    hide Geometry.Ok, ModeOf, Limit, IndexOf, Reconstruct, TreeInv, At;
    var bs := v.geo.blockSize;
    assert BlockSizeOk(bs) by { GeometryBlockSize(v.geo); }
    var index, mode := GetIndirectBlocks(bs, offset);
    assert offset / bs < Limit(bs / 4, 3) by { OffsetsReachable(bs, offset); }
    assert h.it.offset / bs < Limit(bs / 4, 3) by { OffsetsReachable(bs, h.it.offset); }
    IndexInRange(bs / 4, offset / bs);
    IndexInRange(bs / 4, h.it.offset / bs);
    if index == h.it.index {
      ghost var before := h.it;
      h.it := h.it.(offset := offset);
      forall t | 1 <= t <= mode
        ensures LevelOk(DiskOf(v, h), h.ino, h.it, t)
      {
        assert LevelOk(DiskOf(v, h), h.ino, before, t);
      }
      return;
    }
    if h.it.mode != mode {
      CursorInit(v, h, offset);
      return;
    }
    if mode == 0 {
      var b := h.inode.block[index[0]];
      assert SlotAt(DiskOf(v, h), h.ino, index[0]) == b;
      h.it := h.it.(index := index, blksBlk := h.it.blksBlk[0 := b], valid := h.it.valid[0 := b != 0],
                    offset := offset);
      return;
    }
    var j := 1;
    while j <= mode && h.it.index[j] == index[j]
      invariant 1 <= j <= mode + 1
      invariant forall t | 1 <= t < j :: h.it.index[t] == index[t]
    {
      j := j + 1;
    }
    if j >= mode {
      assert h.it.index[0] == index[0];
      assert h.it.index[mode := index[mode]] == index;
      ghost var before := h.it;
      h.it := h.it.(index := h.it.index[mode := index[mode]], offset := offset);
      forall t | 1 <= t <= mode
        ensures LevelOk(DiskOf(v, h), h.ino, h.it, t)
      {
        assert LevelOk(DiskOf(v, h), h.ino, before, t);
        ChainSame(h.ino, before.index, index, t - 1);
      }
    } else {
      CursorInit(v, h, offset);
    }
  }

  /** A disk on which the places of file ino hold the same links and its index blocks are the same keeps the cursor
      good. */
  lemma CursorKept(bs: nat, d: Disk, d': Disk, live: set<nat>, ino: nat, it: Cursor)
    requires BlockSizeOk(bs) && CursorOk(bs, d, ino, it) && ino in live
    requires |d'.blocks| == |d.blocks|
    requires forall p | Place(bs / 4, live, p) && InoOf(p) == ino :: At(d', p) == At(d, p)
    requires forall p | Place(bs / 4, live, p) && InoOf(p) == ino && !Leaf(p) && 0 < At(d, p) < |d.blocks| ::
      d'.blocks[At(d, p)] == d.blocks[At(d, p)]
    ensures CursorOk(bs, d', ino, it)
  {
    var n := it.offset / bs;
    OffsetsReachable(bs, it.offset);
    PathOk(bs / 4, ino, n, 0);
    assert At(d', Slot(ino, it.index[0])) == At(d, Slot(ino, it.index[0]));
    forall t | 1 <= t <= it.mode
      ensures LevelOk(d', ino, it, t)
    {
      assert LevelOk(d, ino, it, t);
      PathOk(bs / 4, ino, n, t - 1);
      assert Place(bs / 4, live, Chain(ino, it.index, t - 1));
    }
  }

  lemma CursorSameSlots(bs: nat, d: Disk, d': Disk, ino: nat, it: Cursor)
    requires BlockSizeOk(bs) && CursorOk(bs, d, ino, it) && SameSlots(d, d')
    ensures CursorOk(bs, d', ino, it)
  {
    SameSlotsAt(d, d');
    forall t | 1 <= t <= it.mode ensures LevelOk(d', ino, it, t) { assert LevelOk(d, ino, it, t); }
  }

  lemma OpenIntro(v: Volume, h: FileHandle)
    requires v.geo.Ok() && BlockSizeOk(v.geo.blockSize)
    requires h.ino in v.live && h.ino < |v.inodes| && v.geo.IsInode(h.ino) && h.inode == v.inodes[h.ino]
    requires h.pbgdIndex == v.geo.InodeGroup(h.ino) < v.geo.Groups()
    requires CursorOk(v.geo.blockSize, v.D(), h.ino, h.it)
    ensures Open(v, h)
  {
  }

  /** What Open says. */
  lemma OpenFacts(v: Volume, h: FileHandle)
    requires v.Sound() && Open(v, h)
    ensures v.geo.Ok() && BlockSizeOk(v.geo.blockSize)
    ensures h.ino in v.live && 0 < h.ino < |v.inodes| && v.geo.IsInode(h.ino) && h.inode == v.inodes[h.ino]
    ensures h.pbgdIndex == v.geo.InodeGroup(h.ino) < v.geo.Groups()
    ensures v.D() == Disk(v.blocks, v.inodes) == DiskOf(v, h)
    ensures CursorOk(v.geo.blockSize, v.D(), h.ino, h.it)
  {
  }

  /** blk_iterator_next on an open handle. */
  method Advance(v: Volume, h: FileHandle, offset: nat)
    requires v.Sound() && Open(v, h) && offset < TWO32
    modifies h`it
    ensures Open(v, h) && h.it.offset == offset
  {
    hide *;
    SoundFacts(v);
    OpenFacts(v, h);
    CursorNext(v, h, offset);
    OpenIntro(v, h);
  }

  /** write_inode_ext2. */
  method WriteInode(v: Volume, h: FileHandle)
    requires h.ino < |v.inodes|
    modifies v`inodes
    ensures v.inodes == old(v.inodes)[h.ino := h.inode]
  {
    v.inodes := v.inodes[h.ino := h.inode];
  }

  /** read_inode_ext2: ties the handle to an inode as it is on the device, with the cursor at offset 0. */
  method ReadInode(v: Volume, h: FileHandle, ino: nat)
    requires v.Sound() && ino in v.live
    modifies h
    ensures h.ino == ino && Open(v, h) && h.pbgd == v.groups[h.pbgdIndex]
  {
    assert v.geo.IsInode(ino) by { InodeNumbered(v.geo, ino); }
    InodeAddressOf(v.geo, ino);
    h.ino := ino;
    h.pbgdIndex := v.geo.InodeGroup(ino);
    h.pbgd := v.groups[h.pbgdIndex];
    h.inode := v.inodes[ino];
    assert DiskOf(v, h) == v.D();
    CursorInit(v, h, 0);
  }
}
