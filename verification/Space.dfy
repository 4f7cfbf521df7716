/** What a write is short of, counted on the volume before the write: the guard that write_file_ext2 does not have. */
module Spaces {
  import opened Bytes
  import opened BlockIndex
  import opened Tree
  import opened Contents
  import opened Volumes
  import opened FileHandles
  import opened Grafting
  import opened FileIO

  lemma PathOfCursor(v: Volume, h: FileHandle)
    requires v.Sound() && Open(v, h)
    ensures BlockSizeOk(v.geo.blockSize)
    ensures h.it.mode <= 3 && |h.it.index| == |h.it.blks| == |h.it.valid| == |h.it.blksBlk| == 4
    ensures PathSet(v.geo.blockSize / 4, h.ino, h.it.offset / v.geo.blockSize)
      == ChainSet(h.ino, h.it.index, 0, h.it.mode)
    ensures forall t: nat | t < h.it.mode :: h.it.blksBlk[t + 1] == At(v.D(), Chain(h.ino, h.it.index, t))
    ensures BlkIndex(h.it) == At(v.D(), Chain(h.ino, h.it.index, h.it.mode))
  {
    hide At, TreeInv, IndexOf, ModeOf, BlkIndex;
    CursorIsWalk(v.geo.blockSize, v.D(), h.ino, h.it);
    OffsetsReachable(v.geo.blockSize, h.it.offset);
    forall t: nat | t < h.it.mode
      ensures h.it.blksBlk[t + 1] == At(v.D(), Chain(h.ino, h.it.index, t))
    {
      assert LevelOk(v.D(), h.ino, h.it, t + 1);
    }
  }

  /** The places that a write at this offset would have to graft. */
  method PlacesMissing(v: Volume, h: FileHandle, offset: nat) returns (ps: set<Pos>)
    requires v.Sound() && Open(v, h) && offset < TWO32 && BlockSizeOk(v.geo.blockSize)
    modifies h`it
    ensures Open(v, h) && v.geo.blockSize > 0 && v.geo.blockSize / 4 > 0
    ensures ps == Missing(v.D(), PathSet(v.geo.blockSize / 4, h.ino, offset / v.geo.blockSize))
  {
    hide *;
    Advance(v, h, offset);
    PathOfCursor(v, h);
    BlockSizePositive(v.geo.blockSize);
    var index, mode, j := h.it.index, h.it.mode, 0;
    while j < mode && h.it.blksBlk[j + 1] != 0
      invariant 0 <= j <= mode
      invariant forall t: nat | t < j :: At(v.D(), Chain(h.ino, index, t)) != 0
    {
      j := j + 1;
    }
    if j == mode && BlkIndex(h.it) != 0 {
      j := j + 1;
    }
    MissingFrom(v.D(), h.ino, index, mode, j);
    var t := mode + 1;
    ps := {};
    ChainSetStep(h.ino, index, t, mode);
    while t > j
      invariant j <= t <= mode + 1 && Open(v, h)
      invariant ps == ChainSet(h.ino, index, t, mode)
    {
      t := t - 1;
      ChainSetStep(h.ino, index, t, mode);
      ps := {Chain(h.ino, index, t)} + ps;
    }
  }

  lemma NeedsPiece(bs: nat, d: Disk, ino: nat, off: nat, count: nat)
    requires BlockSizeOk(bs)
    ensures bs > 0 && bs / 4 > 0
    ensures count == 0 ==> WriteNeeds(bs, d, ino, off, count) == {}
    ensures count > 0 ==>
      && 0 < Piece(bs, off, count) <= count
      && WriteNeeds(bs, d, ino, off, count) == Missing(d, PathSet(bs / 4, ino, off / bs))
           + WriteNeeds(bs, d, ino, off + Piece(bs, off, count), count - Piece(bs, off, count))
  {
    hide Piece, PathSet, WritePlaces, At;
    if count > 0 {
      WritePlacesStep(bs, ino, off, count);
    } else {
      WritePlacesNone(bs, ino, off);
    }
  }

  /** The places that a write would have to graft, each once however many of its blocks have it on their path. */
  method WriteSpace(v: Volume, h: FileHandle, offset: nat, count: nat) returns (needs: set<Pos>)
    requires v.Sound() && Open(v, h) && offset + count < TWO32 && BlockSizeOk(v.geo.blockSize)
    modifies h`it
    ensures Open(v, h) && needs == WriteNeeds(v.geo.blockSize, v.D(), h.ino, offset, count)
  {
    hide *;
    var off: nat, left: nat := offset, count;
    needs := {};
    while left > 0
      invariant off + left == offset + count && Open(v, h)
      invariant needs + WriteNeeds(v.geo.blockSize, v.D(), h.ino, off, left)
        == WriteNeeds(v.geo.blockSize, v.D(), h.ino, offset, count)
    {
      NeedsPiece(v.geo.blockSize, v.D(), h.ino, off, left);
      var here := PlacesMissing(v, h, off);
      var piece := Piece(v.geo.blockSize, off, left);
      needs := needs + here;
      off := off + piece;
      left := left - piece;
    }
    NeedsPiece(v.geo.blockSize, v.D(), h.ino, off, 0);
  }
}
