/** read_file_ext2 and write_file_ext2: a sparse file of blocks that behaves as a plain sequence of bytes. */
module FileIO {
  import opened Bytes
  import opened BlockIndex
  import opened Layout
  import opened Accounting
  import opened Tree
  import opened Contents
  import opened Volumes
  import opened FileHandles
  import opened Grafting

  /** How many of the next `count` bytes lie in the block that holds offset off. */
  function Piece(bs: nat, off: nat, count: nat): nat
    requires bs > 0
  {
    if bs - off % bs < count then bs - off % bs else count
  }

  lemma PieceBounds(bs: nat, off: nat, count: nat)
    requires BlockSizeOk(bs) && count > 0
    ensures 0 < Piece(bs, off, count) <= count && off % bs + Piece(bs, off, count) <= bs
  {
  }

  lemma InPiece(bs: nat, off: nat, x: nat)
    requires BlockSizeOk(bs)
    ensures off <= x < off + (bs - off % bs) ==> x / bs == off / bs && x % bs == off % bs + (x - off)
    ensures x / bs == off / bs ==> off - off % bs <= x < off + (bs - off % bs) && x % bs == off % bs + x - off
  {
    if bs == 1024 { } else { }
  }

  /** One piece of a read: the bytes of the block, or zeros for a hole. */
  lemma PieceRead(bs: nat, d: Disk, ino: nat, off: nat, count: nat, b: nat, piece: seq<byte>)
    requires BlockSizeOk(bs) && count > 0 && off + Piece(bs, off, count) <= SizeOf(d, ino)
    requires b == BlockOf(bs, d, ino, off / bs) && (b != 0 ==> b < |d.blocks| && |d.blocks[b]| == bs)
    requires off % bs + Piece(bs, off, count) <= bs
    requires piece == if b == 0 then Zeros(Piece(bs, off, count))
      else d.blocks[b][off % bs..off % bs + Piece(bs, off, count)]
    ensures piece == Content(bs, d, ino)[off..off + Piece(bs, off, count)]
  {
    hide BlockOf;
    forall k | 0 <= k < |piece|
      ensures piece[k] == Content(bs, d, ino)[off + k]
    {
      InPiece(bs, off, off + k);
    }
  }

  lemma FileOffset(bs: nat, off: nat)
    requires BlockSizeOk(bs) && off < TWO32
    ensures off / bs < Limit(bs / 4, 3)
  {
    OffsetsReachable(bs, off);
  }

  lemma OpenSize(v: Volume, h: FileHandle)
    requires v.Sound() && Open(v, h)
    ensures BlockSizeOk(v.geo.blockSize) && SizeOf(v.D(), h.ino) == h.inode.size < TWO32
  {
  }

  /** The cursor's answer, and what can be said about the block it names. */
  lemma BlockHere(v: Volume, h: FileHandle)
    requires v.Sound() && Open(v, h)
    ensures |h.it.blks| == |h.it.valid| == |h.it.blksBlk| == |h.it.index| == 4 && h.it.mode <= 3
    ensures BlockSizeOk(v.geo.blockSize)
    ensures BlkIndex(h.it) == BlockOf(v.geo.blockSize, v.D(), h.ino, h.it.offset / v.geo.blockSize)
    ensures BlkIndex(h.it) == 0 <==> AtHole(v, h)
    ensures BlkIndex(h.it) != 0 ==> BlkIndex(h.it) < |v.blocks| && |v.blocks[BlkIndex(h.it)]| == v.geo.blockSize
    ensures v.D() == Disk(v.blocks, v.inodes)
  {
    var bs := v.geo.blockSize;
    CursorIsWalk(bs, v.D(), h.ino, h.it);
    OffsetsReachable(bs, h.it.offset);
    FilePosPlace(bs, v.live, h.ino, h.it.offset / bs);
  }

  /** One round of read_file_ext2: what the current block holds of the next `count` bytes. */
  method ReadPiece(v: Volume, h: FileHandle, count: nat) returns (piece: seq<byte>)
    requires v.Sound() && Open(v, h) && count > 0 && BlockSizeOk(v.geo.blockSize)
    requires h.it.offset + count <= SizeOf(v.D(), h.ino)
    modifies h`it
    ensures Open(v, h) && 0 < |piece| <= count && h.it.offset == old(h.it.offset) + |piece|
    ensures piece == Content(v.geo.blockSize, v.D(), h.ino)[old(h.it.offset)..h.it.offset]
  {
    hide *;
    OpenSize(v, h);
    BlockHere(v, h);
    var bs, offset := v.geo.blockSize, h.it.offset;
    BlockSizePositive(bs);
    PieceBounds(bs, offset, count);
    var blk := BlkIndex(h.it);
    var toRead := Piece(bs, offset, count);
    piece := if blk == 0 then Zeros(toRead) else v.blocks[blk][offset % bs..offset % bs + toRead];
    PieceRead(bs, v.D(), h.ino, offset, count, blk, piece);
    Advance(v, h, offset + toRead);
  }

  /** read_file_ext2. */
  method ReadFile(v: Volume, h: FileHandle, counta: nat, offseta: nat) returns (buf: seq<byte>)
    requires v.Sound() && Open(v, h) && offseta < TWO32
    modifies v`inodes, h`it
    ensures v.Sound() && Open(v, h) && v.inodes == old(v.inodes) && v.D() == old(v.D())
    ensures BlockSizeOk(v.geo.blockSize)
    ensures buf == Clamp(Content(v.geo.blockSize, v.D(), h.ino), offseta, counta)
    ensures SliceOf(Content(v.geo.blockSize, v.D(), h.ino), offseta, counta, buf)
  {
    hide *;
    OpenSize(v, h);
    VolumeDisk(v);
    ghost var content := Content(v.geo.blockSize, v.D(), h.ino);
    var size := h.inode.size;
    var offset: nat := if offseta < size then offseta else size;
    var count: nat := if counta < size - offset then counta else size - offset;
    ghost var start, end := offset, offset + count;
    if offset != h.it.offset {
      Advance(v, h, offset);
    }
    buf := [];
    while count > 0
      invariant offset + count == end <= size && start <= offset && size == |content|
      invariant v.Sound() && Open(v, h) && v.D() == old(v.D()) && h.it.offset == offset && v.inodes == old(v.inodes)
      invariant buf == content[start..offset]
    {
      var piece := ReadPiece(v, h, count);
      SliceGrows(content, start, offset, offset + |piece|);
      buf := buf + piece;
      offset := offset + |piece|;
      count := count - |piece|;
    }
    ClampIs(content, offseta, counta);
    ClampSlice(content, offseta, counta);
    OpenFacts(v, h);
    VolumeDisk(v);
    WriteInode(v, h);
    VolumeDisk(v);
    assert v.inodes == old(v.inodes);
  }

  lemma SliceGrows(c: seq<byte>, a: nat, m: nat, b: nat)
    requires a <= m <= b <= |c|
    ensures c[a..m] + c[m..b] == c[a..b]
  {
  }

  /** buf is what c holds of the count bytes from off on. */
  ghost predicate SliceOf(c: seq<byte>, off: nat, count: nat, buf: seq<byte>) {
    && |buf| == (if off >= |c| then 0 else if count < |c| - off then count else |c| - off)
    && forall k | 0 <= k < |buf| :: buf[k] == c[off + k]
  }

  lemma ClampSlice(c: seq<byte>, off: nat, count: nat)
    ensures SliceOf(c, off, count, Clamp(c, off, count))
  {
  }

  lemma ClampIs(s: seq<byte>, off: nat, count: nat)
    ensures var o := if off < |s| then off else |s|;
      var c := if count < |s| - o then count else |s| - o;
      Clamp(s, off, count) == s[o..o + c]
  {
  }

  // ---- writing ----

  /** The places on the paths of all blocks that a write of `count` bytes at off touches. */
  ghost function WritePlaces(bs: nat, ino: nat, off: nat, count: nat): set<Pos>
    requires BlockSizeOk(bs)
    decreases count
  {
    if count == 0 then {}
    else
      PieceBounds(bs, off, count);
      PathSet(bs / 4, ino, off / bs) + WritePlaces(bs, ino, off + Piece(bs, off, count), count - Piece(bs, off, count))
  }

  lemma PathSetPlaces(bs: nat, live: set<nat>, ino: nat, n: nat)
    requires BlockSizeOk(bs) && n < Limit(bs / 4, 3) && ino in live
    ensures forall p | p in PathSet(bs / 4, ino, n) :: Place(bs / 4, live, p)
  {
    PathPlaces(bs / 4, live, ino, n);
  }

  lemma WritePlacesStep(bs: nat, ino: nat, off: nat, count: nat)
    requires BlockSizeOk(bs) && count > 0
    ensures 0 < Piece(bs, off, count) <= count && bs > 0 && bs / 4 > 0
    ensures WritePlaces(bs, ino, off, count)
         == PathSet(bs / 4, ino, off / bs) + WritePlaces(bs, ino, off + Piece(bs, off, count),
                                                         count - Piece(bs, off, count))
  {
    hide Piece, PathSet;
    PieceBounds(bs, off, count);
  }

  lemma WritePlacesNone(bs: nat, ino: nat, off: nat)
    requires BlockSizeOk(bs)
    ensures WritePlaces(bs, ino, off, 0) == {}
  {
  }

  lemma {:induction false} WritePlacesOk(bs: nat, live: set<nat>, ino: nat, off: nat, count: nat)
    requires BlockSizeOk(bs) && ino in live && off + count < TWO32
    ensures forall p | p in WritePlaces(bs, ino, off, count) :: Place(bs / 4, live, p)
    decreases count
  {
    hide *;
    if count == 0 {
      WritePlacesNone(bs, ino, off);
    } else {
      WritePlacesStep(bs, ino, off, count);
      FileOffset(bs, off);
      PathSetPlaces(bs, live, ino, off / bs);
      WritePlacesOk(bs, live, ino, off + Piece(bs, off, count), count - Piece(bs, off, count));
    }
  }

  /** What is still missing on the paths of a write. */
  ghost function WriteNeeds(bs: nat, d: Disk, ino: nat, off: nat, count: nat): set<Pos>
    requires BlockSizeOk(bs)
  {
    Missing(d, WritePlaces(bs, ino, off, count))
  }

  /** Where the path is complete, nothing on it is missing. */
  lemma PathComplete(bs: nat, d: Disk, ino: nat, n: nat)
    requires BlockSizeOk(bs) && BlockOf(bs, d, ino, n) != 0
    ensures Missing(d, PathSet(bs / 4, ino, n)) == {}
  {
    var index, mode := IndexOf(bs / 4, n), ModeOf(bs / 4, n);
    forall p | p in PathSet(bs / 4, ino, n)
      ensures At(d, p) != 0
    {
      assert p == Chain(ino, index, Depth(p));
      if At(d, p) == 0 { ChainMissing(d, ino, index, Depth(p), mode); }
    }
  }

  /** The next piece: after it, as many places are missing as before less those that were given a block. */
  lemma NeedsStep(bs: nat, d: Disk, d': Disk, live: set<nat>, ino: nat, off: nat, count: nat, grown: map<Pos, nat>)
    requires BlockSizeOk(bs) && ino in live && 0 < count && off + count < TWO32
    requires forall p | Place(bs / 4, live, p) :: At(d', p) == if p in grown then grown[p] else At(d, p)
    requires forall p | p in grown :: grown[p] != 0
    requires grown.Keys == Missing(d, PathSet(bs / 4, ino, off / bs))
    ensures 0 < Piece(bs, off, count) <= count
    ensures |WriteNeeds(bs, d, ino, off, count)|
         == |grown| + |WriteNeeds(bs, d', ino, off + Piece(bs, off, count), count - Piece(bs, off, count))|
    ensures |grown| <= |WriteNeeds(bs, d, ino, off, count)|
  {
    hide Piece, PathSet, WritePlaces, Missing, At, PosOk, Place;
    WritePlacesStep(bs, ino, off, count);
    WritePlacesOk(bs, live, ino, off, count);
    var rest := WritePlaces(bs, ino, off + Piece(bs, off, count), count - Piece(bs, off, count));
    SplitNeeds(bs, d, d', live, PathSet(bs / 4, ino, off / bs), rest, grown);
  }

  lemma SplitNeeds(bs: nat, d: Disk, d': Disk, live: set<nat>, here: set<Pos>, rest: set<Pos>, grown: map<Pos, nat>)
    requires forall p | p in here + rest :: Place(bs / 4, live, p)
    requires forall p | Place(bs / 4, live, p) :: At(d', p) == if p in grown then grown[p] else At(d, p)
    requires forall p | p in grown :: grown[p] != 0
    requires grown.Keys == Missing(d, here)
    ensures |Missing(d, here + rest)| == |grown| + |Missing(d', rest)|
  {
    hide At, PosOk, Place;
    assert forall p | p in rest :: p in here + rest;
    assert Missing(d, here + rest) == grown.Keys + Missing(d', rest);
    assert grown.Keys !! Missing(d', rest);
    assert |grown.Keys| == |grown|;
  }

  /** The bytes of all files after part of a write: `data` lies at off in file ino, all else is as in d0. */
  ghost predicate Written(bs: nat, d0: Disk, d: Disk, live: set<nat>, ino: nat, off: nat, data: seq<byte>)
    requires BlockSizeOk(bs)
  {
    forall i, x: nat | i in live ::
      ByteAt(bs, d, i, x) == if i == ino && off <= x < off + |data| then data[x - off] else ByteAt(bs, d0, i, x)
  }

  lemma WrittenTwice(bs: nat, d0: Disk, d1: Disk, d2: Disk, live: set<nat>, ino: nat, off: nat, data: seq<byte>,
                     piece: seq<byte>)
    requires BlockSizeOk(bs) && Written(bs, d0, d1, live, ino, off, data)
      && Written(bs, d1, d2, live, ino, off + |data|, piece)
    ensures Written(bs, d0, d2, live, ino, off, data + piece)
  {
    hide ByteAt;
  }

  /** From d to d' blocks have come to exactly those of the places ps that had none; a place that held a block holds
      the same one still. */
  ghost predicate Filled(links: nat, d: Disk, d': Disk, live: set<nat>, ps: set<Pos>) {
    forall p | Place(links, live, p) ::
      if At(d, p) != 0 then At(d', p) == At(d, p) else At(d', p) != 0 <==> p in ps
  }

  lemma FilledTwice(links: nat, d0: Disk, d1: Disk, d2: Disk, live: set<nat>, ps: set<Pos>, qs: set<Pos>)
    requires Filled(links, d0, d1, live, ps) && Filled(links, d1, d2, live, qs)
    ensures Filled(links, d0, d2, live, ps + qs)
  {
    hide At, Place;
  }

  lemma FilledSame(links: nat, d0: Disk, d1: Disk, d2: Disk, live: set<nat>, ps: set<Pos>)
    requires Filled(links, d0, d1, live, ps) && forall p | Place(links, live, p) :: At(d2, p) == At(d1, p)
    ensures Filled(links, d0, d2, live, ps)
  {
    hide At, Place;
  }

  lemma FilledNot(links: nat, d: Disk, live: set<nat>, ps: set<Pos>)
    requires Missing(d, ps) == {}
    ensures Filled(links, d, d, live, ps)
  {
    hide At, Place;
    forall p | At(d, p) == 0
      ensures p !in ps
    {
      assert p !in Missing(d, ps);
    }
  }

  lemma FilledGraft(links: nat, d: Disk, d': Disk, live: set<nat>, ps: set<Pos>, grown: map<Pos, nat>)
    requires forall p | Place(links, live, p) :: At(d', p) == if p in grown then grown[p] else At(d, p)
    requires forall p | p in grown :: grown[p] != 0
    requires grown.Keys == Missing(d, ps)
    ensures Filled(links, d, d', live, ps)
  {
    hide At, Place;
    forall p
      ensures p in grown <==> p in ps && At(d, p) == 0
    {
      assert p in grown <==> p in Missing(d, ps);
    }
  }

  /** p lies on the path of a block that holds one of the bytes [a, b). */
  ghost predicate OnPath(bs: nat, ino: nat, a: nat, b: nat, p: Pos)
    requires bs > 0 && bs / 4 > 0
  {
    exists x :: a <= x < b && p in PathSet(bs / 4, ino, x / bs)
  }

  lemma OnPathSplit(bs: nat, ino: nat, a: nat, m: nat, b: nat, p: Pos)
    requires bs > 0 && bs / 4 > 0 && a <= m <= b
    ensures OnPath(bs, ino, a, b, p) <==> OnPath(bs, ino, a, m, p) || OnPath(bs, ino, m, b, p)
    ensures a == b ==> !OnPath(bs, ino, a, b, p)
  {
    hide PathSet;
  }

  lemma OnPathPiece(bs: nat, ino: nat, off: nat, count: nat, p: Pos)
    requires BlockSizeOk(bs) && count > 0
    ensures bs > 0 && bs / 4 > 0 && 0 < Piece(bs, off, count) <= count
    ensures OnPath(bs, ino, off, off + Piece(bs, off, count), p) <==> p in PathSet(bs / 4, ino, off / bs)
  {
    hide PathSet, Piece;
    PieceBounds(bs, off, count);
    PieceInside(bs, off, count);
    assert p in PathSet(bs / 4, ino, off / bs) ==> off <= off < off + Piece(bs, off, count);
  }

  /** The places of a write are those on the paths of the blocks its bytes lie in. */
  lemma {:induction false} InWritePlaces(bs: nat, ino: nat, off: nat, count: nat, p: Pos)
    requires BlockSizeOk(bs)
    ensures bs > 0 && bs / 4 > 0
    ensures p in WritePlaces(bs, ino, off, count) <==> OnPath(bs, ino, off, off + count, p)
    decreases count
  {
    hide *;
    BlockSizePositive(bs);
    if count == 0 {
      WritePlacesNone(bs, ino, off);
      OnPathSplit(bs, ino, off, off, off, p);
    } else {
      WritePlacesStep(bs, ino, off, count);
      var n := Piece(bs, off, count);
      InWritePlaces(bs, ino, off + n, count - n, p);
      OnPathPiece(bs, ino, off, count, p);
      OnPathSplit(bs, ino, off, off + n, off + count, p);
    }
  }

  lemma PieceInside(bs: nat, off: nat, count: nat)
    requires BlockSizeOk(bs) && count > 0
    ensures bs > 0 && forall x | off <= x < off + Piece(bs, off, count) :: x / bs == off / bs
  {
    PieceBounds(bs, off, count);
    forall x | off <= x < off + Piece(bs, off, count)
      ensures x / bs == off / bs
    {
      InPiece(bs, off, x);
    }
  }

  lemma WritePlacesJoin(bs: nat, ino: nat, off: nat, m: nat, n: nat)
    requires BlockSizeOk(bs)
    ensures WritePlaces(bs, ino, off, m + n) == WritePlaces(bs, ino, off, m) + WritePlaces(bs, ino, off + m, n)
  {
    hide *;
    var all, parts := WritePlaces(bs, ino, off, m + n), WritePlaces(bs, ino, off, m) + WritePlaces(bs, ino, off + m, n);
    forall p
      ensures p in all <==> p in parts
    {
      InWritePlaces(bs, ino, off, m + n, p);
      InWritePlaces(bs, ino, off, m, p);
      InWritePlaces(bs, ino, off + m, n, p);
      OnPathSplit(bs, ino, off, off + m, off + m + n, p);
    }
  }

  lemma WritePlacesOne(bs: nat, ino: nat, off: nat, count: nat)
    requires BlockSizeOk(bs) && count > 0
    ensures bs > 0 && bs / 4 > 0
    ensures WritePlaces(bs, ino, off, Piece(bs, off, count)) == PathSet(bs / 4, ino, off / bs)
  {
    hide PathSet;
    PieceBounds(bs, off, count);
    WritePlacesStep(bs, ino, off, Piece(bs, off, count));
  }

  // ---- the order in which blocks are taken ----

  /** When levels below j are there and level j is not, all from j on are missing. */
  lemma MissingFrom(d: Disk, ino: nat, index: seq<nat>, mode: nat, j: nat)
    requires mode < |index| && j <= mode + 1
    requires forall t: nat | t < j :: At(d, Chain(ino, index, t)) != 0
    requires j <= mode ==> At(d, Chain(ino, index, j)) == 0
    ensures Missing(d, ChainSet(ino, index, 0, mode)) == ChainSet(ino, index, j, mode)
  {
    hide At;
    var all := ChainSet(ino, index, 0, mode);
    forall p | p in all
      ensures At(d, p) == 0 <==> p in ChainSet(ino, index, j, mode)
    {
      var t := Depth(p);
      assert p == Chain(ino, index, t);
      if t >= j { ChainMissing(d, ino, index, j, t); }
    }
    forall p | p in ChainSet(ino, index, j, mode)
      ensures p in all
    {
      assert p == Chain(ino, index, Depth(p));
    }
  }

  /** Places j..mode of a path, from the last one up. */
  lemma ChainSetStep(ino: nat, index: seq<nat>, j: nat, mode: nat)
    requires mode < |index|
    ensures j > mode ==> ChainSet(ino, index, j, mode) == {}
    ensures j <= mode ==> ChainSet(ino, index, j, mode) == {Chain(ino, index, j)} + ChainSet(ino, index, j + 1, mode)
  {
  }

  /** The places from level j of a path on are mode + 1 - j. */
  lemma {:induction false} ChainSize(ino: nat, index: seq<nat>, j: nat, mode: nat)
    requires j <= mode + 1 && mode < |index|
    ensures |ChainSet(ino, index, j, mode)| == mode + 1 - j
    decreases mode + 1 - j
  {
    hide *;
    ChainSetStep(ino, index, j, mode);
    if j <= mode {
      ChainSize(ino, index, j + 1, mode);
      NotFurtherDown(ino, index, j, mode);
    }
  }

  lemma NotFurtherDown(ino: nat, index: seq<nat>, j: nat, mode: nat)
    requires j <= mode < |index|
    ensures Chain(ino, index, j) !in ChainSet(ino, index, j + 1, mode)
  {
    ChainShape(ino, index, j);
    hide Chain;
  }

  /** The first level of a path that is missing; mode + 1 where none is. */
  lemma {:induction false} FirstMissing(d: Disk, ino: nat, index: seq<nat>, mode: nat, from: nat) returns (j: nat)
    requires mode < |index| && from <= mode + 1
    requires forall t: nat | t < from :: At(d, Chain(ino, index, t)) != 0
    ensures j <= mode + 1 && forall t: nat | t < j :: At(d, Chain(ino, index, t)) != 0
    ensures j <= mode ==> At(d, Chain(ino, index, j)) == 0
    decreases mode + 1 - from
  {
    hide At, Chain;
    if from == mode + 1 || At(d, Chain(ino, index, from)) == 0 {
      j := from;
    } else {
      j := FirstMissing(d, ino, index, mode, from + 1);
    }
  }

  /** The places on the path to block n of file ino that hold nothing and are not in `done`, from the block's own place
      upwards. */
  ghost function PathOrder(links: nat, d: Disk, ino: nat, n: nat, done: set<Pos>): seq<Pos>
    requires links > 0
  {
    UpPath(ino, IndexOf(links, n), ModeOf(links, n), |Missing(d, PathSet(links, ino, n)) - done|)
  }

  ghost function UpPath(ino: nat, index: seq<nat>, mode: nat, k: nat): (r: seq<Pos>)
    requires mode < |index|
    ensures |r| == k
  {
    seq(k, i requires 0 <= i < k => Chain(ino, index, if i <= mode then mode - i else 0))
  }

  /** The places a write has to fill in the order in which it does: block by block, and on each path upwards. */
  ghost function WriteOrder(bs: nat, d: Disk, ino: nat, off: nat, count: nat, done: set<Pos>): seq<Pos>
    requires BlockSizeOk(bs)
    decreases count
  {
    if count == 0 then []
    else
      PieceBounds(bs, off, count);
      PathOrder(bs / 4, d, ino, off / bs, done)
      + WriteOrder(bs, d, ino, off + Piece(bs, off, count), count - Piece(bs, off, count),
                   done + PathSet(bs / 4, ino, off / bs))
  }

  lemma WriteOrderStep(bs: nat, d: Disk, ino: nat, off: nat, count: nat, done: set<Pos>)
    requires BlockSizeOk(bs)
    ensures bs > 0 && bs / 4 > 0
    ensures count == 0 ==> WriteOrder(bs, d, ino, off, count, done) == []
    ensures count > 0 ==>
      && 0 < Piece(bs, off, count) <= count
      && WriteOrder(bs, d, ino, off, count, done) == PathOrder(bs / 4, d, ino, off / bs, done)
           + WriteOrder(bs, d, ino, off + Piece(bs, off, count), count - Piece(bs, off, count),
                        done + PathSet(bs / 4, ino, off / bs))
  {
    hide Piece, PathOrder, PathSet;
    if count > 0 { PieceBounds(bs, off, count); }
  }

  ghost function HeldAt(d: Disk, ps: seq<Pos>): (r: seq<nat>)
    ensures |r| == |ps|
  {
    seq(|ps|, i requires 0 <= i < |ps| => At(d, ps[i]))
  }

  /** The blocks held at ps have been taken in this order, each as the first free one from the group of ino on. */
  ghost predicate TakenInOrder(geo: Geometry, marked: set<nat>, marked': set<nat>, ino: nat, d: Disk, live: set<nat>,
                               ps: seq<Pos>)
  {
    && geo.Ok() && geo.IsInode(ino) && Picking(geo, marked, marked', geo.InodeGroup(ino), HeldAt(d, ps))
    && forall i | 0 <= i < |ps| :: Place(geo.blockSize / 4, live, ps[i]) && At(d, ps[i]) != 0
  }

  lemma TakenNone(geo: Geometry, marked: set<nat>, ino: nat, d: Disk, live: set<nat>)
    requires geo.Ok() && geo.IsInode(ino)
    ensures TakenInOrder(geo, marked, marked, ino, d, live, [])
  {
    var g := geo.InodeGroup(ino);
    hide Geometry.Ok, Geometry.IsInode, Picks, Members;
    PicksNone(geo, marked, g);
    assert HeldAt(d, []) == [];
  }

  lemma TakenTwice(geo: Geometry, m0: set<nat>, m1: set<nat>, m2: set<nat>, ino: nat, d1: Disk, d2: Disk,
                   live: set<nat>, ps: seq<Pos>, qs: seq<Pos>, some: set<Pos>)
    requires TakenInOrder(geo, m0, m1, ino, d1, live, ps) && TakenInOrder(geo, m1, m2, ino, d2, live, qs)
    requires Filled(geo.blockSize / 4, d1, d2, live, some)
    ensures TakenInOrder(geo, m0, m2, ino, d2, live, ps + qs)
  {
    hide *;
    TakenIs(geo, m0, m1, ino, d1, live, ps);
    TakenIs(geo, m1, m2, ino, d2, live, qs);
    HeldJoin(geo.blockSize / 4, d1, d2, live, ps, qs, some);
    OkInodes(geo);
    var g := geo.InodeGroup(ino);
    PickingIs(geo, m0, m1, g, HeldAt(d1, ps));
    PickingIs(geo, m1, m2, g, HeldAt(d2, qs));
    PicksJoin(geo, m0, g, HeldAt(d1, ps), HeldAt(d2, qs));
    PickingIs(geo, m0, m2, g, HeldAt(d2, ps + qs));
    TakenIs(geo, m0, m2, ino, d2, live, ps + qs);
  }

  lemma OkInodes(geo: Geometry)
    requires geo.Ok()
    ensures geo.inodesPerGroup > 0
  {
  }

  lemma TakenIs(geo: Geometry, marked: set<nat>, marked': set<nat>, ino: nat, d: Disk, live: set<nat>, ps: seq<Pos>)
    ensures TakenInOrder(geo, marked, marked', ino, d, live, ps) <==>
      && geo.Ok() && geo.IsInode(ino) && Picking(geo, marked, marked', geo.InodeGroup(ino), HeldAt(d, ps))
      && forall i | 0 <= i < |ps| :: Place(geo.blockSize / 4, live, ps[i]) && At(d, ps[i]) != 0
    ensures TakenInOrder(geo, marked, marked', ino, d, live, ps) ==> ino > 0
  {
    hide Picking, HeldAt, At, Place;
  }

  lemma HeldJoin(links: nat, d1: Disk, d2: Disk, live: set<nat>, ps: seq<Pos>, qs: seq<Pos>, some: set<Pos>)
    requires Filled(links, d1, d2, live, some)
    requires forall i | 0 <= i < |ps| :: Place(links, live, ps[i]) && At(d1, ps[i]) != 0
    requires forall i | 0 <= i < |qs| :: Place(links, live, qs[i]) && At(d2, qs[i]) != 0
    ensures HeldAt(d2, ps + qs) == HeldAt(d1, ps) + HeldAt(d2, qs)
    ensures forall i | 0 <= i < |ps + qs| :: Place(links, live, (ps + qs)[i]) && At(d2, (ps + qs)[i]) != 0
  {
    hide At, Place;
  }

  lemma TakenSame(geo: Geometry, marked: set<nat>, marked': set<nat>, ino: nat, d: Disk, d': Disk, live: set<nat>,
                  ps: seq<Pos>)
    requires TakenInOrder(geo, marked, marked', ino, d, live, ps)
    requires forall p | Place(geo.blockSize / 4, live, p) :: At(d', p) == At(d, p)
    ensures TakenInOrder(geo, marked, marked', ino, d', live, ps)
  {
    hide Geometry.Ok, Geometry.IsInode, Picking, At, Place;
    assert HeldAt(d', ps) == HeldAt(d, ps);
  }

  /** The blocks of one graft. */
  lemma TakenByGraft(geo: Geometry, marked: set<nat>, marked': set<nat>, d: Disk, d': Disk, live: set<nat>,
                     grown: map<Pos, nat>, ino: nat, n: nat)
    requires PicksAt(geo, marked, marked', grown, ino, n) && BlockSizeOk(geo.blockSize) && ino in live
    requires Extended(geo.blockSize, d, d', live, grown, ino, n)
    requires grown.Keys == Missing(d, PathSet(geo.blockSize / 4, ino, n))
    ensures TakenInOrder(geo, marked, marked', ino, d', live, PathOrder(geo.blockSize / 4, d, ino, n, {}))
  {
    hide *;
    BlockSizePositive(geo.blockSize);
    var links := geo.blockSize / 4;
    var index, mode := IndexOf(links, n), ModeOf(links, n);
    var ps := PathOrder(links, d, ino, n, {});
    ExtendedAt(geo.blockSize, d, d', live, grown, ino, n);
    PathSetPlaces(geo.blockSize, live, ino, n);
    PathSetIs(links, ino, n);
    var j := FirstMissing(d, ino, index, mode, 0);
    MissingFrom(d, ino, index, mode, j);
    ChainSize(ino, index, j, mode);
    PathOrderIs(links, d, ino, n);
    assert |grown.Keys| == |grown|;
    UpPathBlocks(grown, ino, index, j, mode);
    HeldIs(d', ps, grown, PathBlocks(grown, ino, index, mode));
    TakenIntro(geo, marked, marked', grown, ino, n, d', live, ps);
  }

  lemma ExtendedAt(bs: nat, d: Disk, d': Disk, live: set<nat>, grown: map<Pos, nat>, ino: nat, n: nat)
    requires BlockSizeOk(bs) && Extended(bs, d, d', live, grown, ino, n)
    ensures n < Limit(bs / 4, 3)
    ensures forall p | p in grown && Place(bs / 4, live, p) :: At(d', p) == grown[p] != 0
  {
    hide At, Place, BlockOf, Limit;
  }

  lemma PathSetIs(links: nat, ino: nat, n: nat)
    requires links > 0
    ensures PathSet(links, ino, n) == ChainSet(ino, IndexOf(links, n), 0, ModeOf(links, n))
  {
    hide IndexOf, ModeOf;
  }

  lemma PathOrderIs(links: nat, d: Disk, ino: nat, n: nat)
    requires links > 0
    ensures PathOrder(links, d, ino, n, {})
      == UpPath(ino, IndexOf(links, n), ModeOf(links, n), |Missing(d, PathSet(links, ino, n))|)
  {
    hide IndexOf, ModeOf, PathSet, UpPath, At;
    assert Missing(d, PathSet(links, ino, n)) - {} == Missing(d, PathSet(links, ino, n));
  }

  lemma UpPathBlocks(grown: map<Pos, nat>, ino: nat, index: seq<nat>, j: nat, mode: nat)
    requires mode < |index| && j <= mode + 1 && grown.Keys == ChainSet(ino, index, j, mode) && |grown| == mode + 1 - j
    ensures forall i | 0 <= i < |grown| ::
      && UpPath(ino, index, mode, |grown|)[i] in grown
      && PathBlocks(grown, ino, index, mode)[i] == grown[UpPath(ino, index, mode, |grown|)[i]]
  {
    InChainSet2(ino, index, j, mode);
    hide Chain, ChainSet;
    forall i | 0 <= i < |grown|
      ensures UpPath(ino, index, mode, |grown|)[i] in grown
      ensures PathBlocks(grown, ino, index, mode)[i] == grown[UpPath(ino, index, mode, |grown|)[i]]
    {
      assert j <= mode - i <= mode;
      assert Chain(ino, index, mode - i) in grown.Keys;
    }
  }

  lemma HeldIs(d: Disk, ps: seq<Pos>, grown: map<Pos, nat>, blocks: seq<nat>)
    requires |blocks| == |ps| && forall i | 0 <= i < |ps| :: ps[i] in grown && blocks[i] == grown[ps[i]]
    requires forall p | p in ps :: p in grown ==> At(d, p) == grown[p]
    ensures HeldAt(d, ps) == blocks
  {
    hide At;
  }

  lemma TakenIntro(geo: Geometry, marked: set<nat>, marked': set<nat>, grown: map<Pos, nat>, ino: nat, n: nat,
                   d: Disk, live: set<nat>, ps: seq<Pos>)
    requires PicksAt(geo, marked, marked', grown, ino, n)
    requires HeldAt(d, ps) == PathBlocks(grown, ino, IndexOf(geo.blockSize / 4, n), ModeOf(geo.blockSize / 4, n))
    requires forall i | 0 <= i < |ps| :: Place(geo.blockSize / 4, live, ps[i]) && At(d, ps[i]) != 0
    ensures TakenInOrder(geo, marked, marked', ino, d, live, ps)
  {
    hide At, Place, Picking, Geometry.Ok, Geometry.IsInode, PathBlocks, HeldAt, IndexOf, ModeOf;
  }

  lemma InChainSet2(ino: nat, index: seq<nat>, j: nat, mode: nat)
    requires mode < |index|
    ensures forall t: nat | j <= t <= mode :: Chain(ino, index, t) in ChainSet(ino, index, j, mode)
  {
    if j <= mode { InChainSet(ino, index, j, mode); }
  }

  lemma NothingToTake(links: nat, d: Disk, ino: nat, n: nat)
    requires links > 0 && Missing(d, PathSet(links, ino, n)) == {}
    ensures PathOrder(links, d, ino, n, {}) == []
  {
    hide Chain, IndexOf, ModeOf, At;
  }

  /** What a path is still short of when the places `done` have been filled. */
  lemma StillShort(links: nat, d0: Disk, d: Disk, live: set<nat>, ino: nat, n: nat, done: set<Pos>)
    requires links > 0 && Filled(links, d0, d, live, done)
    requires forall p | p in PathSet(links, ino, n) :: Place(links, live, p)
    ensures PathOrder(links, d, ino, n, {}) == PathOrder(links, d0, ino, n, done)
  {
    hide At, Place, PathSet, IndexOf, ModeOf, Chain;
    assert Missing(d, PathSet(links, ino, n)) - {} == Missing(d0, PathSet(links, ino, n)) - done;
  }

  /** How far a write has come with its first |data| bytes: they lie at off and all other bytes are as they were, no
      other file is touched, and just the places on their paths have come to hold blocks. */
  ghost predicate Going(bs: nat, d0: Disk, d: Disk, live: set<nat>, owner0: map<nat, Pos>, ino: nat, off: nat,
                        data: seq<byte>)
    requires BlockSizeOk(bs)
  {
    && Written(bs, d0, d, live, ino, off, data)
    && Untouched(bs / 4, d0, d, live, owner0, ino)
    && Filled(bs / 4, d0, d, live, WritePlaces(bs, ino, off, |data|))
  }

  lemma GoingIs(bs: nat, d0: Disk, d: Disk, live: set<nat>, owner0: map<nat, Pos>, ino: nat, off: nat, data: seq<byte>)
    requires BlockSizeOk(bs)
    ensures Going(bs, d0, d, live, owner0, ino, off, data) <==>
      && Written(bs, d0, d, live, ino, off, data)
      && Untouched(bs / 4, d0, d, live, owner0, ino)
      && Filled(bs / 4, d0, d, live, WritePlaces(bs, ino, off, |data|))
  {
  }

  lemma GoingTwice(bs: nat, d0: Disk, d1: Disk, d2: Disk, live: set<nat>, owner0: map<nat, Pos>, owner1: map<nat, Pos>,
                   ino: nat, off: nat, data: seq<byte>, piece: seq<byte>)
    requires BlockSizeOk(bs) && Going(bs, d0, d1, live, owner0, ino, off, data)
    requires Going(bs, d1, d2, live, owner1, ino, off + |data|, piece) && OwnersGrow(owner0, owner1, ino)
    ensures Going(bs, d0, d2, live, owner0, ino, off, data + piece)
  {
    hide *;
    GoingIs(bs, d0, d1, live, owner0, ino, off, data);
    GoingIs(bs, d1, d2, live, owner1, ino, off + |data|, piece);
    WrittenTwice(bs, d0, d1, d2, live, ino, off, data, piece);
    UntouchedTwice(bs / 4, d0, d1, d2, live, owner0, owner1, ino);
    WritePlacesJoin(bs, ino, off, |data|, |piece|);
    FilledTwice(bs / 4, d0, d1, d2, live, WritePlaces(bs, ino, off, |data|),
                WritePlaces(bs, ino, off + |data|, |piece|));
    GoingIs(bs, d0, d2, live, owner0, ino, off, data + piece);
  }

  lemma GoingNowhere(bs: nat, d: Disk, live: set<nat>, owner: map<nat, Pos>, ino: nat, off: nat)
    requires BlockSizeOk(bs) && TreeInv(bs / 4, d, live, owner)
    ensures Going(bs, d, d, live, owner, ino, off, [])
  {
    hide *;
    SameBytesRefl(bs, d, live, owner, ino);
    WrittenNothing(bs, d, live, ino, off);
    WritePlacesNone(bs, ino, off);
    MissingNone(d);
    FilledNot(bs / 4, d, live, {});
    GoingIs(bs, d, d, live, owner, ino, off, []);
  }

  lemma MissingNone(d: Disk)
    ensures Missing(d, {}) == {}
  {
  }

  /** One piece written into the block that holds it. */
  lemma WrittenPiece(bs: nat, d: Disk, d': Disk, live: set<nat>, owner: map<nat, Pos>, ino: nat, off: nat,
                     piece: seq<byte>, b: nat)
    requires BlockSizeOk(bs) && TreeInv(bs / 4, d, live, owner) && ino in live
    requires b == BlockOf(bs, d, ino, off / bs) && 0 < b < |d.blocks| && |d.blocks[b]| == bs
    requires off % bs + |piece| <= bs
    requires d' == d.(blocks := d.blocks[b := Overlay(d.blocks[b], off % bs, piece)])
    ensures TreeInv(bs / 4, d', live, owner)
    ensures forall p | Place(bs / 4, live, p) :: At(d', p) == At(d, p)
    ensures Written(bs, d, d', live, ino, off, piece)
  {
    hide At, PosOk, TreeInv, Place, BlockOf;
    var n := off / bs;
    var x := Overlay(d.blocks[b], off % bs, piece);
    DataWrite(bs, d, d', live, owner, ino, n, x);
    forall i, y: nat | i in live
      ensures ByteAt(bs, d', i, y) == if i == ino && off <= y < off + |piece| then piece[y - off]
        else ByteAt(bs, d, i, y)
    {
      InPiece(bs, off, y);
      if i == ino && y / bs == n {
        SameByteOfBlock(bs, d, ino, y, b);
      }
    }
  }

  lemma SameByteOfBlock(bs: nat, d: Disk, ino: nat, y: nat, b: nat)
    requires BlockSizeOk(bs) && b == BlockOf(bs, d, ino, y / bs) && 0 < b < |d.blocks| && |d.blocks[b]| == bs
    ensures y % bs < bs && ByteAt(bs, d, ino, y) == d.blocks[b][y % bs]
  {
  }

  /** The inode of the written file may have grown; its mode and link count, and all other inodes, are untouched. */
  ghost predicate Grew(d0: Disk, d: Disk, ino: nat, end: nat) {
    && ino < |d0.inodes| == |d.inodes|
    && d.inodes == d0.inodes[ino := d.inodes[ino]]
    && d.inodes[ino].mode == d0.inodes[ino].mode && d.inodes[ino].links == d0.inodes[ino].links
    && d0.inodes[ino].size <= d.inodes[ino].size
    && (d.inodes[ino].size <= end || d.inodes[ino].size == d0.inodes[ino].size)
  }

  /** What a write has cost and changed so far: the file's inode may have grown to `end`, other files own the blocks
      they owned, and one free block went for each place that is no longer missing; if none went, the owners and the
      group descriptors are what they were. */
  ghost predicate Spent(d0: Disk, d: Disk, ino: nat, end: nat, owner0: map<nat, Pos>, owner: map<nat, Pos>,
                        groups0: seq<GroupDesc>, groups: seq<GroupDesc>, free0: nat, free: nat, needs0: nat, needs: nat)
  {
    && Grew(d0, d, ino, end)
    && OwnersGrow(owner0, owner, ino)
    && needs <= needs0 && free + needs0 == free0 + needs
    && (needs == needs0 ==> owner == owner0 && groups == groups0)
  }

  lemma SpentTwice(d0: Disk, d1: Disk, d2: Disk, ino: nat, end1: nat, end2: nat,
                   owner0: map<nat, Pos>, owner1: map<nat, Pos>, owner2: map<nat, Pos>,
                   groups0: seq<GroupDesc>, groups1: seq<GroupDesc>, groups2: seq<GroupDesc>,
                   free0: nat, free1: nat, free2: nat, needs0: nat, needs1: nat, needs2: nat)
    requires Spent(d0, d1, ino, end1, owner0, owner1, groups0, groups1, free0, free1, needs0, needs1)
    requires Spent(d1, d2, ino, end2, owner1, owner2, groups1, groups2, free1, free2, needs1, needs2)
    requires end1 <= end2
    ensures Spent(d0, d2, ino, end2, owner0, owner2, groups0, groups2, free0, free2, needs0, needs2)
  {
    hide OwnersBut;
  }

  lemma SpentNothing(d: Disk, d1: Disk, ino: nat, end: nat, owner: map<nat, Pos>, groups: seq<GroupDesc>, free: nat,
                     needs: nat)
    requires ino < |d.inodes| && d1.inodes == d.inodes
    ensures Spent(d, d1, ino, end, owner, owner, groups, groups, free, free, needs, needs)
  {
    hide OwnersBut;
    assert d.inodes[ino := d.inodes[ino]] == d.inodes;
  }

  /** At a hole at least one place is missing, and what is missing here is part of what the write needs. */
  lemma HoleNeeds(v: Volume, h: FileHandle, count: nat)
    requires v.Sound() && Open(v, h) && AtHole(v, h) && count > 0 && BlockSizeOk(v.geo.blockSize)
    ensures 1 <= |MissingHere(v, h)| <= |WriteNeeds(v.geo.blockSize, v.D(), h.ino, h.it.offset, count)|
  {
    var bs, d := v.geo.blockSize, v.D();
    MissingHereIs(v, h);
    FileOffset(bs, h.it.offset);
    assert FilePos(bs / 4, h.ino, h.it.offset / bs) in MissingHere(v, h);
    WritePlacesStep(bs, h.ino, h.it.offset, count);
    hide WritePlaces;
    SubsetSize(MissingHere(v, h), WriteNeeds(bs, d, h.ino, h.it.offset, count));
  }

  lemma MissingHereIs(v: Volume, h: FileHandle)
    requires v.geo.Ok() && BlockSizeOk(v.geo.blockSize)
    ensures MissingHere(v, h) == Missing(v.D(), PathSet(v.geo.blockSize / 4, h.ino, h.it.offset / v.geo.blockSize))
  {
  }

  /** Where there is a block already, the write goes on without needing anything new for this piece. */
  lemma NoHoleStep(v: Volume, h: FileHandle, count: nat)
    requires v.Sound() && Open(v, h) && !AtHole(v, h) && count > 0 && h.it.offset + count < TWO32
      && BlockSizeOk(v.geo.blockSize)
    ensures var bs, off, n := v.geo.blockSize, h.it.offset, Piece(v.geo.blockSize, h.it.offset, count);
      && 0 < n <= count
      && |WriteNeeds(bs, v.D(), h.ino, off, count)| == |WriteNeeds(bs, v.D(), h.ino, off + n, count - n)|
      && Filled(bs / 4, v.D(), v.D(), v.live, PathSet(bs / 4, h.ino, off / bs))
      && PathOrder(bs / 4, v.D(), h.ino, off / bs, {}) == []
  {
    hide WriteNeeds, PathSet, PathOrder, Missing, Piece, At, Place, TreeInv, CursorOk, Filled;
    NoNeedHere(v.geo.blockSize, v.D(), v.live, h.ino, h.it.offset, count);
    PathComplete(v.geo.blockSize, v.D(), h.ino, h.it.offset / v.geo.blockSize);
    NothingToTake(v.geo.blockSize / 4, v.D(), h.ino, h.it.offset / v.geo.blockSize);
    FilledNot(v.geo.blockSize / 4, v.D(), v.live,
              PathSet(v.geo.blockSize / 4, h.ino, h.it.offset / v.geo.blockSize));
  }

  lemma NoNeedHere(bs: nat, d: Disk, live: set<nat>, ino: nat, off: nat, count: nat)
    requires BlockSizeOk(bs) && ino in live && 0 < count && off + count < TWO32 && BlockOf(bs, d, ino, off / bs) != 0
    ensures 0 < Piece(bs, off, count) <= count
    ensures |WriteNeeds(bs, d, ino, off, count)| == |WriteNeeds(bs, d, ino, off + Piece(bs, off, count),
                                                                count - Piece(bs, off, count))|
  {
    hide *;
    BlockSizePositive(bs);
    PathComplete(bs, d, ino, off / bs);
    NeedsStep(bs, d, d, live, ino, off, count, map[]);
  }

  /** Where a path was grafted, the write needs as many blocks less as the graft took. */
  lemma GraftStep(v: Volume, h: FileHandle, d: Disk, it: Cursor, count: nat, grown: map<Pos, nat>)
    requires BlockSizeOk(v.geo.blockSize) && h.ino in v.live && count > 0 && it.offset + count < TWO32
    requires Extended(v.geo.blockSize, d, v.D(), v.live, grown, h.ino, it.offset / v.geo.blockSize)
    requires grown.Keys == Missing(d, PathSet(v.geo.blockSize / 4, h.ino, it.offset / v.geo.blockSize))
    ensures var bs, off, n := v.geo.blockSize, it.offset, Piece(v.geo.blockSize, it.offset, count);
      && 0 < n <= count && |grown| > 0
      && |WriteNeeds(bs, d, h.ino, off, count)| == |grown| + |WriteNeeds(bs, v.D(), h.ino, off + n, count - n)|
    ensures BlockOf(v.geo.blockSize, v.D(), h.ino, it.offset / v.geo.blockSize) != 0
    ensures SameBytes(v.geo.blockSize, d, v.D(), v.live)
    ensures Filled(v.geo.blockSize / 4, d, v.D(), v.live,
                   PathSet(v.geo.blockSize / 4, h.ino, it.offset / v.geo.blockSize))
  {
    hide WriteNeeds, Missing, PathSet, Piece, FilePos, At, PosOk, BlockOf, Filled;
    var bs := v.geo.blockSize;
    FilledGraft(bs / 4, d, v.D(), v.live, PathSet(bs / 4, h.ino, it.offset / bs), grown);
    NeedsStep(bs, d, v.D(), v.live, h.ino, it.offset, count, grown);
    assert FilePos(bs / 4, h.ino, it.offset / bs) in grown;
  }

  lemma NewBlockIs(bs: nat, d: Disk, d': Disk, live: set<nat>, grown: map<Pos, nat>, ino: nat, n: nat)
    requires BlockSizeOk(bs) && Extended(bs, d, d', live, grown, ino, n) && ino in live
    ensures FilePos(bs / 4, ino, n) in grown && BlockOf(bs, d', ino, n) == grown[FilePos(bs / 4, ino, n)]
  {
    hide At, Place, FilePos, BlockOf;
  }

  lemma GrewIntro(d0: Disk, d: Disk, ino: nat, end: nat)
    requires ino < |d0.inodes| == |d.inodes| && d.inodes == d0.inodes[ino := d.inodes[ino]]
    requires d.inodes[ino].mode == d0.inodes[ino].mode && d.inodes[ino].links == d0.inodes[ino].links
    requires d0.inodes[ino].size <= d.inodes[ino].size
    requires d.inodes[ino].size <= end || d.inodes[ino].size == d0.inodes[ino].size
    ensures Grew(d0, d, ino, end)
  {
  }

  /** Gives the current offset a block if it is in a hole. */
  method EnsureBlock(v: Volume, h: FileHandle, count: nat) returns (n: nat)
    requires v.Sound() && Open(v, h) && count > 0 && h.it.offset + count < TWO32
    requires BlockSizeOk(v.geo.blockSize)
    requires |WriteNeeds(v.geo.blockSize, v.D(), h.ino, h.it.offset, count)| <= v.freeBlocks
    modifies v`blocks, v`inodes, v`groups, v`blockBits, v`freeBlocks, v`used, v`owner, h`inode, h`it
    ensures v.Sound() && Open(v, h) && !AtHole(v, h) && h.it.offset == old(h.it.offset)
    ensures 0 < n == Piece(v.geo.blockSize, h.it.offset, count) <= count
    ensures SameBytes(v.geo.blockSize, old(v.D()), v.D(), v.live)
    ensures Untouched(v.geo.blockSize / 4, old(v.D()), v.D(), v.live, old(v.owner), h.ino)
    ensures Filled(v.geo.blockSize / 4, old(v.D()), v.D(), v.live,
                   PathSet(v.geo.blockSize / 4, h.ino, h.it.offset / v.geo.blockSize))
    ensures TakenInOrder(v.geo, old(v.Marked()), v.Marked(), h.ino, v.D(), v.live,
                         PathOrder(v.geo.blockSize / 4, old(v.D()), h.ino, h.it.offset / v.geo.blockSize, {}))
    ensures old(AtHole(v, h)) ==>
      BlockChosen(v.geo, old(v.Marked()), v.geo.InodeGroup(h.ino),
                  BlockOf(v.geo.blockSize, v.D(), h.ino, h.it.offset / v.geo.blockSize))
    ensures Spent(old(v.D()), v.D(), h.ino, h.it.offset + n, old(v.owner), v.owner, old(v.groups), v.groups,
                  old(v.freeBlocks), v.freeBlocks,
                  |old(WriteNeeds(v.geo.blockSize, v.D(), h.ino, h.it.offset, count))|,
                  |WriteNeeds(v.geo.blockSize, v.D(), h.ino, h.it.offset + n, count - n)|)
  {
    hide *;
    ghost var d, it := v.D(), h.it;
    BlockSizePositive(v.geo.blockSize);
    PieceBounds(v.geo.blockSize, h.it.offset, count);
    n := Piece(v.geo.blockSize, h.it.offset, count);
    BlockHere(v, h);
    OpenFacts(v, h);
    SoundFacts(v);
    if BlkIndex(h.it) == 0 {
      HoleNeeds(v, h, count);
      MissingHereIs(v, h);
      ghost var grown := AllocateNewDataBlock(v, h, n);
      GraftStep(v, h, d, it, count, grown);
      TakenByGraft(v.geo, old(v.Marked()), v.Marked(), d, v.D(), v.live, grown, h.ino, it.offset / v.geo.blockSize);
      NewBlockIs(v.geo.blockSize, d, v.D(), v.live, grown, h.ino, it.offset / v.geo.blockSize);
      BlockHere(v, h);
      GrewIntro(d, v.D(), h.ino, h.it.offset + n);
      SpentGraft(d, v.D(), h.ino, h.it.offset + n, old(v.owner), v.owner, old(v.groups), v.groups, old(v.freeBlocks),
                 v.freeBlocks,
                 |WriteNeeds(v.geo.blockSize, d, h.ino, it.offset, count)|,
                 |WriteNeeds(v.geo.blockSize, v.D(), h.ino, it.offset + n, count - n)|);
    } else {
      NoHoleStep(v, h, count);
      TakenNone(v.geo, v.Marked(), h.ino, d, v.live);
      SpentNothing(d, d, h.ino, h.it.offset + n, v.owner, v.groups, v.freeBlocks,
                   |WriteNeeds(v.geo.blockSize, d, h.ino, it.offset, count)|);
      SameBytesRefl(v.geo.blockSize, d, v.live, v.owner, h.ino);
    }
  }

  lemma SpentGraft(d0: Disk, d: Disk, ino: nat, end: nat, owner0: map<nat, Pos>, owner: map<nat, Pos>,
                   groups0: seq<GroupDesc>, groups: seq<GroupDesc>, free0: nat, free: nat, needs0: nat, needs: nat)
    requires Grew(d0, d, ino, end) && OwnersGrow(owner0, owner, ino)
    requires needs < needs0 && free + needs0 == free0 + needs
    ensures Spent(d0, d, ino, end, owner0, owner, groups0, groups, free0, free, needs0, needs)
  {
  }

  lemma SameBytesRefl(bs: nat, d: Disk, live: set<nat>, owner: map<nat, Pos>, ino: nat)
    requires BlockSizeOk(bs) && TreeInv(bs / 4, d, live, owner)
    ensures SameBytes(bs, d, d, live) && Untouched(bs / 4, d, d, live, owner, ino)
  {
  }

  /** One round of write_file_ext2: the next piece of `data` at the current offset, in a new block if there is none. */
  method WritePiece(v: Volume, h: FileHandle, data: seq<byte>) returns (n: nat)
    requires v.Sound() && Open(v, h) && |data| > 0 && h.it.offset + |data| < TWO32
    requires BlockSizeOk(v.geo.blockSize)
    requires |WriteNeeds(v.geo.blockSize, v.D(), h.ino, h.it.offset, |data|)| <= v.freeBlocks
    modifies v`blocks, v`inodes, v`groups, v`blockBits, v`freeBlocks, v`used, v`owner, h`inode, h`it
    ensures v.Sound() && Open(v, h)
    ensures 0 < n <= |data| && h.it.offset == old(h.it.offset) + n
    ensures Going(v.geo.blockSize, old(v.D()), v.D(), v.live, old(v.owner), h.ino, old(h.it.offset), data[..n])
    ensures n == Piece(v.geo.blockSize, old(h.it.offset), |data|)
    ensures TakenInOrder(v.geo, old(v.Marked()), v.Marked(), h.ino, v.D(), v.live,
                         PathOrder(v.geo.blockSize / 4, old(v.D()), h.ino, old(h.it.offset) / v.geo.blockSize, {}))
    ensures Spent(old(v.D()), v.D(), h.ino, h.it.offset, old(v.owner), v.owner, old(v.groups), v.groups,
                  old(v.freeBlocks), v.freeBlocks,
                  |old(WriteNeeds(v.geo.blockSize, v.D(), h.ino, h.it.offset, |data|))|,
                  |WriteNeeds(v.geo.blockSize, v.D(), h.ino, h.it.offset, |data| - n)|)
  {
    hide *;
    ghost var d, bs := v.D(), v.geo.blockSize;
    ghost var offset := h.it.offset;
    BlockSizePositive(bs);
    PieceBounds(bs, offset, |data|);
    OpenFacts(v, h);
    n := EnsureBlock(v, h, |data|);
    ghost var d1, owner1 := v.D(), v.owner;
    StoreData(v, h, data[..n]);
    SpentFacts(d, d1, h.ino, offset + n, old(v.owner), owner1, old(v.groups), v.groups, old(v.freeBlocks), v.freeBlocks,
               |WriteNeeds(bs, d, h.ino, offset, |data|)|, |WriteNeeds(bs, d1, h.ino, offset + n, |data| - n)|);
    UntouchedTwice(bs / 4, d, d1, v.D(), v.live, old(v.owner), owner1, h.ino);
    WrittenAfterSame(bs, d, d1, v.D(), v.live, h.ino, offset, data[..n]);
    TakenSame(v.geo, old(v.Marked()), v.Marked(), h.ino, d1, v.D(), v.live,
              PathOrder(bs / 4, d, h.ino, offset / bs, {}));
    FilledSame(bs / 4, d, d1, v.D(), v.live, PathSet(bs / 4, h.ino, offset / bs));
    WritePlacesOne(bs, h.ino, offset, |data|);
    GoingIs(bs, d, v.D(), v.live, old(v.owner), h.ino, offset, data[..n]);
    SameNeeds(bs, d1, v.D(), v.live, h.ino, offset + n, |data| - n);
    SpentSameInodes(d, d1, v.D(), h.ino, h.it.offset, old(v.owner), v.owner, old(v.groups), v.groups,
                    old(v.freeBlocks), v.freeBlocks,
                    |WriteNeeds(bs, d, h.ino, offset, |data|)|, |WriteNeeds(bs, d1, h.ino, offset + n, |data| - n)|);
  }

  lemma WrittenAfterSame(bs: nat, d0: Disk, d1: Disk, d2: Disk, live: set<nat>, ino: nat, off: nat, piece: seq<byte>)
    requires BlockSizeOk(bs) && SameBytes(bs, d0, d1, live) && Written(bs, d1, d2, live, ino, off, piece)
    ensures Written(bs, d0, d2, live, ino, off, piece)
  {
    hide ByteAt;
  }

  lemma SameNeeds(bs: nat, d: Disk, d': Disk, live: set<nat>, ino: nat, off: nat, count: nat)
    requires BlockSizeOk(bs) && ino in live && off + count < TWO32
    requires forall p | Place(bs / 4, live, p) :: At(d', p) == At(d, p)
    ensures WriteNeeds(bs, d', ino, off, count) == WriteNeeds(bs, d, ino, off, count)
  {
    hide At, Place, WritePlaces;
    WritePlacesOk(bs, live, ino, off, count);
  }

  lemma SpentSameInodes(d0: Disk, d1: Disk, d2: Disk, ino: nat, end: nat, owner0: map<nat, Pos>, owner: map<nat, Pos>,
                        groups0: seq<GroupDesc>, groups: seq<GroupDesc>, free0: nat, free: nat, needs0: nat, needs: nat)
    requires Spent(d0, d1, ino, end, owner0, owner, groups0, groups, free0, free, needs0, needs)
      && d2.inodes == d1.inodes
    ensures Spent(d0, d2, ino, end, owner0, owner, groups0, groups, free0, free, needs0, needs)
  {
  }

  /** write_to_dev of a piece into the block at the current offset, and the step to the next offset. */
  method StoreData(v: Volume, h: FileHandle, piece: seq<byte>)
    requires v.Sound() && Open(v, h) && !AtHole(v, h) && BlockSizeOk(v.geo.blockSize)
    requires h.it.offset % v.geo.blockSize + |piece| <= v.geo.blockSize && h.it.offset + |piece| < TWO32
    modifies v`blocks, h`it
    ensures v.Sound() && Open(v, h) && h.it.offset == old(h.it.offset) + |piece|
    ensures Written(v.geo.blockSize, old(v.D()), v.D(), v.live, h.ino, old(h.it.offset), piece)
    ensures v.D().inodes == old(v.D()).inodes
    ensures Untouched(v.geo.blockSize / 4, old(v.D()), v.D(), v.live, v.owner, h.ino)
    ensures forall p | Place(v.geo.blockSize / 4, v.live, p) :: At(v.D(), p) == At(old(v.D()), p)
  {
    hide *;
    BlockSizePositive(v.geo.blockSize);
    BlockHere(v, h);
    SoundFacts(v);
    OpenFacts(v, h);
    ghost var d := v.D();
    var blk := BlkIndex(h.it);
    var block := Overlay(v.blocks[blk], h.it.offset % v.geo.blockSize, piece);
    v.WriteBlock(blk, block);
    VolumeDisk(v);
    WrittenPiece(v.geo.blockSize, d, v.D(), v.live, v.owner, h.ino, h.it.offset, piece, blk);
    CursorAfterData(v.geo.blockSize, d, v.D(), v.live, v.owner, h.ino, h.it, blk);
    SameInodes(v.geo.blockSize, d, v.D(), v.live, v.owner);
    DataUntouched(v.geo.blockSize, d, v.D(), v.live, v.owner, h.ino, h.it, blk);
    SoundIntro(v);
    OpenIntro(v, h);
    Advance(v, h, h.it.offset + |piece|);
  }

  lemma SameInodes(bs: nat, d: Disk, d': Disk, live: set<nat>, owner: map<nat, Pos>)
    requires d'.inodes == d.inodes && SizesOk(d, live) && SectorsOk(bs, d, live, owner)
    ensures SizesOk(d', live) && SectorsOk(bs, d', live, owner)
  {
  }

  /** A data write leaves the cached index blocks as they are on the device. */
  lemma CursorAfterData(bs: nat, d: Disk, d': Disk, live: set<nat>, owner: map<nat, Pos>, ino: nat, it: Cursor, b: nat)
    requires BlockSizeOk(bs) && TreeInv(bs / 4, d, live, owner) && CursorOk(bs, d, ino, it) && ino in live
    requires b == BlockOf(bs, d, ino, it.offset / bs) != 0
    requires |d'.blocks| == |d.blocks| && forall c | 0 <= c < |d.blocks| && c != b :: d'.blocks[c] == d.blocks[c]
    requires forall p | Place(bs / 4, live, p) :: At(d', p) == At(d, p)
    ensures CursorOk(bs, d', ino, it)
  {
    hide At, PosOk, CursorOk;
    OffsetOfCursor(bs, d, ino, it);
    FilePosPlace(bs, live, ino, it.offset / bs);
    assert owner[b] == FilePos(bs / 4, ino, it.offset / bs);
    CursorKept(bs, d, d', live, ino, it);
  }

  lemma DataUntouched(bs: nat, d: Disk, d': Disk, live: set<nat>, owner: map<nat, Pos>, ino: nat, it: Cursor, b: nat)
    requires BlockSizeOk(bs) && TreeInv(bs / 4, d, live, owner) && CursorOk(bs, d, ino, it) && ino in live
    requires b == BlockOf(bs, d, ino, it.offset / bs) != 0
    requires |d'.blocks| == |d.blocks| && forall c | 0 <= c < |d.blocks| && c != b :: d'.blocks[c] == d.blocks[c]
    requires forall p | Place(bs / 4, live, p) :: At(d', p) == At(d, p)
    ensures Untouched(bs / 4, d, d', live, owner, ino)
  {
    hide At, PosOk, CursorOk;
    OffsetOfCursor(bs, d, ino, it);
    FilePosPlace(bs, live, ino, it.offset / bs);
    PathOk(bs / 4, ino, it.offset / bs, ModeOf(bs / 4, it.offset / bs));
    assert owner[b] == FilePos(bs / 4, ino, it.offset / bs);
  }

  lemma OffsetOfCursor(bs: nat, d: Disk, ino: nat, it: Cursor)
    requires BlockSizeOk(bs) && CursorOk(bs, d, ino, it)
    ensures it.offset / bs < Limit(bs / 4, 3)
  {
    OffsetsReachable(bs, it.offset);
  }

  /** Files other than ino keep their inode and their content; ino keeps its mode and link count. */
  ghost predicate OnlyContent(bs: nat, d0: Disk, d: Disk, live: set<nat>, ino: nat)
    requires BlockSizeOk(bs)
  {
    && ino < |d0.inodes| == |d.inodes|
    && d.inodes == d0.inodes[ino := d.inodes[ino]]
    && d.inodes[ino].mode == d0.inodes[ino].mode && d.inodes[ino].links == d0.inodes[ino].links
    && forall i | i in live && i != ino :: Content(bs, d, i) == Content(bs, d0, i)
  }

  /** write_file_ext2. The volume must have a free block for every place that is missing on the paths of the blocks to
      be written; exactly these places are given one. */
  method WriteFile(v: Volume, h: FileHandle, buf: seq<byte>, offseta: nat) returns (nwrt: nat)
    requires v.Consistent() && Open(v, h) && offseta + |buf| < TWO32 && BlockSizeOk(v.geo.blockSize)
    requires |WriteNeeds(v.geo.blockSize, v.D(), h.ino, offseta, |buf|)| <= v.freeBlocks
    modifies v`blocks, v`inodes, v`groups, v`blockBits, v`freeBlocks, v`used, v`owner, h`inode, h`it
    ensures v.Consistent() && Open(v, h) && nwrt == |buf|
    ensures Content(v.geo.blockSize, v.D(), h.ino) == Overlay(Content(v.geo.blockSize, old(v.D()), h.ino), offseta, buf)
    ensures OnlyContent(v.geo.blockSize, old(v.D()), v.D(), v.live, h.ino)
    ensures Untouched(v.geo.blockSize / 4, old(v.D()), v.D(), v.live, old(v.owner), h.ino)
    ensures Filled(v.geo.blockSize / 4, old(v.D()), v.D(), v.live,
                   WritePlaces(v.geo.blockSize, h.ino, offseta, |buf|))
    ensures TakenInOrder(v.geo, old(v.Marked()), v.Marked(), h.ino, v.D(), v.live,
                         WriteOrder(v.geo.blockSize, old(v.D()), h.ino, offseta, |buf|, {}))
    ensures OwnersGrow(old(v.owner), v.owner, h.ino)
    ensures v.freeBlocks + |WriteNeeds(v.geo.blockSize, old(v.D()), h.ino, offseta, |buf|)| == old(v.freeBlocks)
    ensures WriteNeeds(v.geo.blockSize, old(v.D()), h.ino, offseta, |buf|) == {}
      ==> v.groups == old(v.groups) && v.owner == old(v.owner) && v.blockBits == old(v.blockBits)
  {
    hide *;
    ghost var d0, bs := v.D(), v.geo.blockSize;
    ghost var needs := |WriteNeeds(bs, d0, h.ino, offseta, |buf|)|;
    ConsistentIs(v);
    OpenFacts(v, h);
    var offset: nat, count: nat := offseta, |buf|;
    nwrt := 0;
    if offset != h.it.offset {
      Advance(v, h, offset);
    }
    SoundFacts(v);
    AccountedFacts(v);
    ghost var m0, order, taken := Now(v), WriteOrder(bs, d0, h.ino, offseta, |buf|, {}), [];
    FlightStart(v.geo, m0, v.live, h.ino, offseta, |buf|) by { NowIs(v); }
    NowIs(v);
    assert buf[..0] == [];
    while count > 0
      invariant nwrt + count == |buf| && offset == offseta + nwrt
      invariant v.Sound() && Open(v, h) && h.it.offset == offset
      invariant InFlight(v.geo, m0, Now(v), v.live, h.ino, offseta, buf[..nwrt], count, order, taken)
    {
      ghost var m, k := Now(v), offset / bs;
      NowIs(v);
      FlightRoom(v.geo, m0, m, v.live, h.ino, offseta, buf[..nwrt], count, order, taken);
      var n := WritePiece(v, h, buf[nwrt..]);
      NowIs(v);
      assert buf[..nwrt] + buf[nwrt..][..n] == buf[..nwrt + n];
      FlightMore(v.geo, m0, m, Now(v), v.live, h.ino, offseta, buf[..nwrt], buf[nwrt..][..n], count, k, order,
                 taken);
      taken := taken + PathOrder(bs / 4, m.disk, h.ino, k, {});
      offset := offset + n;
      nwrt := nwrt + n;
      count := count - n;
    }
    NowIs(v);
    FlightIs(v.geo, m0, Now(v), v.live, h.ino, offseta, buf[..nwrt], count, order, taken);
    assert buf[..nwrt] == buf;
    NeedsNothing(bs, v.D(), h.ino, offset);
    SpentFacts(d0, v.D(), h.ino, offset, old(v.owner), v.owner, old(v.groups), v.groups, old(v.freeBlocks),
               v.freeBlocks, needs, 0);
    SoundFacts(v);
    AccountedFacts(v);
    if v.owner == old(v.owner) {
      AllocationDetermined(BlockSpace(v.geo), v.geo.blockSize, v.used + v.reserved, v.blockPadding, old(v.blockBits),
                           BlockCounts(old(v.groups)), v.blockBits, BlockCounts(v.groups));
    }
    OrderEnd(v.geo, old(v.Marked()), v.Marked(), h.ino, d0, v.D(), v.live, offseta, nwrt, order, taken);
    ghost var d1 := v.D();
    RecordSize(v, h, d0, old(v.owner), offseta, buf);
    SameSlotsAt(d1, v.D());
    TakenSame(v.geo, old(v.Marked()), v.Marked(), h.ino, d1, v.D(), v.live, order);
  }

  /** A volume in the middle of a write, as far as the write goes. */
  datatype Moment = Moment(disk: Disk, owner: map<nat, Pos>, groups: seq<GroupDesc>, free: nat, marked: set<nat>)

  ghost function Now(v: Volume): Moment
    reads v
  {
    Moment(v.D(), v.owner, v.groups, v.freeBlocks, v.Marked())
  }

  lemma NowIs(v: Volume)
    ensures Now(v) == Moment(v.D(), v.owner, v.groups, v.freeBlocks, v.Marked())
  {
  }

  /** A write that began at m0 has come to m: `data` is written at off, `count` bytes are left. */
  ghost predicate InFlight(geo: Geometry, m0: Moment, m: Moment, live: set<nat>, ino: nat, off: nat, data: seq<byte>,
                           count: nat, order: seq<Pos>, taken: seq<Pos>)
  {
    && BlockSizeOk(geo.blockSize)
    && Going(geo.blockSize, m0.disk, m.disk, live, m0.owner, ino, off, data)
    && Ordered(geo, m0.marked, m.marked, ino, m0.disk, m.disk, live, off, |data|, count, order, taken)
    && Spent(m0.disk, m.disk, ino, off + |data|, m0.owner, m.owner, m0.groups, m.groups, m0.free, m.free,
             |WriteNeeds(geo.blockSize, m0.disk, ino, off, |data| + count)|,
             |WriteNeeds(geo.blockSize, m.disk, ino, off + |data|, count)|)
  }

  lemma FlightIs(geo: Geometry, m0: Moment, m: Moment, live: set<nat>, ino: nat, off: nat, data: seq<byte>,
                 count: nat, order: seq<Pos>, taken: seq<Pos>)
    ensures InFlight(geo, m0, m, live, ino, off, data, count, order, taken) <==>
      && BlockSizeOk(geo.blockSize)
      && Going(geo.blockSize, m0.disk, m.disk, live, m0.owner, ino, off, data)
      && Ordered(geo, m0.marked, m.marked, ino, m0.disk, m.disk, live, off, |data|, count, order, taken)
      && Spent(m0.disk, m.disk, ino, off + |data|, m0.owner, m.owner, m0.groups, m.groups, m0.free, m.free,
               |WriteNeeds(geo.blockSize, m0.disk, ino, off, |data| + count)|,
               |WriteNeeds(geo.blockSize, m.disk, ino, off + |data|, count)|)
  {
  }

  lemma FlightStart(geo: Geometry, m: Moment, live: set<nat>, ino: nat, off: nat, count: nat)
    requires geo.Ok() && geo.IsInode(ino) && BlockSizeOk(geo.blockSize) && ino < |m.disk.inodes|
    requires TreeInv(geo.blockSize / 4, m.disk, live, m.owner)
    ensures InFlight(geo, m, m, live, ino, off, [], count, WriteOrder(geo.blockSize, m.disk, ino, off, count, {}), [])
  {
    hide *;
    GoingNowhere(geo.blockSize, m.disk, live, m.owner, ino, off);
    OrderStart(geo, m.marked, ino, m.disk, live, off, count);
    SpentNothing(m.disk, m.disk, ino, off, m.owner, m.groups, m.free,
                 |WriteNeeds(geo.blockSize, m.disk, ino, off, count)|);
    FlightIs(geo, m, m, live, ino, off, [], count, WriteOrder(geo.blockSize, m.disk, ino, off, count, {}), []);
  }

  /** What is left needs no more blocks than there are. */
  lemma FlightRoom(geo: Geometry, m0: Moment, m: Moment, live: set<nat>, ino: nat, off: nat, data: seq<byte>,
                   count: nat, order: seq<Pos>, taken: seq<Pos>)
    requires InFlight(geo, m0, m, live, ino, off, data, count, order, taken) && BlockSizeOk(geo.blockSize)
    requires |WriteNeeds(geo.blockSize, m0.disk, ino, off, |data| + count)| <= m0.free
    ensures |WriteNeeds(geo.blockSize, m.disk, ino, off + |data|, count)| <= m.free
  {
    hide *;
    FlightIs(geo, m0, m, live, ino, off, data, count, order, taken);
    SpentRoom(m0.disk, m.disk, ino, off + |data|, m0.owner, m.owner, m0.groups, m.groups, m0.free, m.free,
              |WriteNeeds(geo.blockSize, m0.disk, ino, off, |data| + count)|,
              |WriteNeeds(geo.blockSize, m.disk, ino, off + |data|, count)|);
  }

  /** The same with the lengths as numbers of their own. */
  lemma FlightIntro(geo: Geometry, m0: Moment, m: Moment, live: set<nat>, ino: nat, off: nat, data: seq<byte>,
                    nwrt: nat, count: nat, total: nat, order: seq<Pos>, taken: seq<Pos>)
    requires BlockSizeOk(geo.blockSize) && |data| == nwrt && nwrt + count == total
    requires Going(geo.blockSize, m0.disk, m.disk, live, m0.owner, ino, off, data)
    requires Ordered(geo, m0.marked, m.marked, ino, m0.disk, m.disk, live, off, nwrt, count, order, taken)
    requires Spent(m0.disk, m.disk, ino, off + nwrt, m0.owner, m.owner, m0.groups, m.groups, m0.free, m.free,
                   |WriteNeeds(geo.blockSize, m0.disk, ino, off, total)|,
                   |WriteNeeds(geo.blockSize, m.disk, ino, off + nwrt, count)|)
    ensures InFlight(geo, m0, m, live, ino, off, data, count, order, taken)
  {
    hide *;
    assert |data| + count == total && off + |data| == off + nwrt;
    FlightIs(geo, m0, m, live, ino, off, data, count, order, taken);
  }

  /** One more piece, in block k of the file. */
  lemma FlightMore(geo: Geometry, m0: Moment, m1: Moment, m2: Moment, live: set<nat>, ino: nat, off: nat,
                   data: seq<byte>, piece: seq<byte>, count: nat, k: nat, order: seq<Pos>, taken: seq<Pos>)
    requires InFlight(geo, m0, m1, live, ino, off, data, count, order, taken) && BlockSizeOk(geo.blockSize)
    requires 0 < count && ino in live && off + |data| + count < TWO32 && k == (off + |data|) / geo.blockSize
    requires |piece| == Piece(geo.blockSize, off + |data|, count) <= count
    requires Going(geo.blockSize, m1.disk, m2.disk, live, m1.owner, ino, off + |data|, piece)
    requires TakenInOrder(geo, m1.marked, m2.marked, ino, m2.disk, live,
                          PathOrder(geo.blockSize / 4, m1.disk, ino, k, {}))
    requires Spent(m1.disk, m2.disk, ino, off + |data| + |piece|, m1.owner, m2.owner, m1.groups, m2.groups, m1.free,
                   m2.free, |WriteNeeds(geo.blockSize, m1.disk, ino, off + |data|, count)|,
                   |WriteNeeds(geo.blockSize, m2.disk, ino, off + |data| + |piece|, count - |piece|)|)
    ensures InFlight(geo, m0, m2, live, ino, off, data + piece, count - |piece|, order,
                     taken + PathOrder(geo.blockSize / 4, m1.disk, ino, k, {}))
  {
    hide *;
    BlockSizePositive(geo.blockSize);
    var bs, at, n := geo.blockSize, off + |data|, |piece|;
    var here := PathOrder(bs / 4, m1.disk, ino, k, {});
    FlightIs(geo, m0, m1, live, ino, off, data, count, order, taken);
    var needs0 := |WriteNeeds(bs, m0.disk, ino, off, |data| + count)|;
    var needs1 := |WriteNeeds(bs, m1.disk, ino, at, count)|;
    SpentFacts(m0.disk, m1.disk, ino, at, m0.owner, m1.owner, m0.groups, m1.groups, m0.free, m1.free, needs0, needs1);
    OrderMore(geo, m0.marked, m1.marked, m2.marked, ino, m0.disk, m1.disk, m2.disk, live, m0.owner, m1.owner, off,
              |data|, count, k, order, taken, data, piece);
    GoingTwice(bs, m0.disk, m1.disk, m2.disk, live, m0.owner, m1.owner, ino, off, data, piece);
    SpentTwice(m0.disk, m1.disk, m2.disk, ino, at, at + n, m0.owner, m1.owner, m2.owner, m0.groups, m1.groups,
               m2.groups, m0.free, m1.free, m2.free, needs0, needs1,
               |WriteNeeds(bs, m2.disk, ino, at + n, count - n)|);
    FlightIntro(geo, m0, m2, live, ino, off, data + piece, |data| + n, count - n, |data| + count, order, taken + here);
  }

  /** The part of the order that has been taken, and the part that is left. */
  ghost predicate Ordered(geo: Geometry, marked: set<nat>, marked': set<nat>, ino: nat, d0: Disk, d: Disk,
                          live: set<nat>, off: nat, nwrt: nat, count: nat, order: seq<Pos>, taken: seq<Pos>)
  {
    && BlockSizeOk(geo.blockSize) && TakenInOrder(geo, marked, marked', ino, d, live, taken)
    && order == taken + WriteOrder(geo.blockSize, d0, ino, off + nwrt, count,
                                   WritePlaces(geo.blockSize, ino, off, nwrt))
  }

  lemma OrderedIs(geo: Geometry, marked: set<nat>, marked': set<nat>, ino: nat, d0: Disk, d: Disk, live: set<nat>,
                  off: nat, nwrt: nat, count: nat, order: seq<Pos>, taken: seq<Pos>)
    ensures Ordered(geo, marked, marked', ino, d0, d, live, off, nwrt, count, order, taken) <==>
      && BlockSizeOk(geo.blockSize) && TakenInOrder(geo, marked, marked', ino, d, live, taken)
      && order == taken + WriteOrder(geo.blockSize, d0, ino, off + nwrt, count,
                                     WritePlaces(geo.blockSize, ino, off, nwrt))
  {
  }

  lemma OrderStart(geo: Geometry, marked: set<nat>, ino: nat, d: Disk, live: set<nat>, off: nat, count: nat)
    requires geo.Ok() && geo.IsInode(ino) && BlockSizeOk(geo.blockSize)
    ensures Ordered(geo, marked, marked, ino, d, d, live, off, 0, count,
                    WriteOrder(geo.blockSize, d, ino, off, count, {}), [])
  {
    hide *;
    TakenNone(geo, marked, ino, d, live);
    WritePlacesNone(geo.blockSize, ino, off);
    var order := WriteOrder(geo.blockSize, d, ino, off, count, {});
    assert order == [] + order;
    OrderedIs(geo, marked, marked, ino, d, d, live, off, 0, count, order, []);
  }

  lemma OrderMore(geo: Geometry, m0: set<nat>, m1: set<nat>, m2: set<nat>, ino: nat, d0: Disk, d1: Disk, d2: Disk,
                  live: set<nat>, owner0: map<nat, Pos>, owner1: map<nat, Pos>, off: nat, nwrt: nat, count: nat,
                  k: nat, order: seq<Pos>, taken: seq<Pos>, data: seq<byte>, piece: seq<byte>)
    requires Ordered(geo, m0, m1, ino, d0, d1, live, off, nwrt, count, order, taken) && BlockSizeOk(geo.blockSize)
    requires 0 < count && ino in live && off + nwrt + count < TWO32 && |data| == nwrt
    requires k == (off + nwrt) / geo.blockSize
    requires |piece| == Piece(geo.blockSize, off + nwrt, count)
    requires Going(geo.blockSize, d0, d1, live, owner0, ino, off, data)
    requires Going(geo.blockSize, d1, d2, live, owner1, ino, off + nwrt, piece)
    requires TakenInOrder(geo, m1, m2, ino, d2, live,
                          PathOrder(geo.blockSize / 4, d1, ino, k, {}))
    ensures |piece| <= count
    ensures Ordered(geo, m0, m2, ino, d0, d2, live, off, nwrt + |piece|, count - |piece|, order,
                    taken + PathOrder(geo.blockSize / 4, d1, ino, k, {}))
  {
    hide *;
    var bs, at, n := geo.blockSize, off + nwrt, |piece|;
    BlockSizePositive(bs);
    OrderedIs(geo, m0, m1, ino, d0, d1, live, off, nwrt, count, order, taken);
    var done := WritePlaces(bs, ino, off, nwrt);
    GoingIs(bs, d0, d1, live, owner0, ino, off, data);
    GoingIs(bs, d1, d2, live, owner1, ino, at, piece);
    WriteOrderStep(bs, d0, ino, at, count, done);
    FileOffset(bs, at);
    PathSetPlaces(bs, live, ino, at / bs);
    StillShort(bs / 4, d0, d1, live, ino, at / bs, done);
    var here := PathOrder(bs / 4, d1, ino, k, {});
    TakenTwice(geo, m0, m1, m2, ino, d1, d2, live, taken, here, WritePlaces(bs, ino, at, n));
    WritePlacesJoin(bs, ino, off, nwrt, n);
    WritePlacesOne(bs, ino, at, count);
    var rest := WriteOrder(bs, d0, ino, at + n, count - n, done + PathSet(bs / 4, ino, at / bs));
    assert taken + (here + rest) == (taken + here) + rest;
    OrderedIs(geo, m0, m2, ino, d0, d2, live, off, nwrt + n, count - n, order, taken + here);
  }

  lemma OrderEnd(geo: Geometry, marked: set<nat>, marked': set<nat>, ino: nat, d0: Disk, d: Disk, live: set<nat>,
                 off: nat, nwrt: nat, order: seq<Pos>, taken: seq<Pos>)
    requires Ordered(geo, marked, marked', ino, d0, d, live, off, nwrt, 0, order, taken)
    ensures TakenInOrder(geo, marked, marked', ino, d, live, order)
  {
    hide *;
    OrderedIs(geo, marked, marked', ino, d0, d, live, off, nwrt, 0, order, taken);
    WriteOrderStep(geo.blockSize, d0, ino, off + nwrt, 0, WritePlaces(geo.blockSize, ino, off, nwrt));
    assert taken + [] == taken;
  }

  /** The end of a write: the inode's size catches up with the offset reached, and the inode is written. */
  method RecordSize(v: Volume, h: FileHandle, ghost d0: Disk, ghost owner0: map<nat, Pos>, ghost off: nat,
                    ghost buf: seq<byte>)
    requires v.Sound() && Open(v, h) && BlockSizeOk(v.geo.blockSize) && h.it.offset == off + |buf| < TWO32
    requires Going(v.geo.blockSize, d0, v.D(), v.live, owner0, h.ino, off, buf)
    requires Grew(d0, v.D(), h.ino, h.it.offset) && ZeroTail(v.geo.blockSize, d0, v.live)
    modifies v`inodes, h`inode
    ensures v.Consistent() && Open(v, h)
    ensures Content(v.geo.blockSize, v.D(), h.ino) == Overlay(Content(v.geo.blockSize, d0, h.ino), off, buf)
    ensures OnlyContent(v.geo.blockSize, d0, v.D(), v.live, h.ino)
    ensures Untouched(v.geo.blockSize / 4, d0, v.D(), v.live, owner0, h.ino)
    ensures Filled(v.geo.blockSize / 4, d0, v.D(), v.live, WritePlaces(v.geo.blockSize, h.ino, off, |buf|))
    ensures SameSlots(old(v.D()), v.D())
  {
    hide *;
    ghost var d1, bs := v.D(), v.geo.blockSize;
    SoundFacts(v);
    OpenFacts(v, h);
    var lastOffset := h.it.offset;
    if lastOffset > h.inode.size {
      h.inode := h.inode.(size := lastOffset);
    }
    WriteInode(v, h);
    VolumeDisk(v);
    GoingIs(bs, d0, d1, v.live, owner0, h.ino, off, buf);
    WriteComplete(bs, d0, d1, v.D(), v.live, v.owner, h.ino, h.it, off, buf);
    UntouchedSameSlots(bs / 4, d0, d1, v.D(), v.live, owner0, h.ino);
    SameSlotsAt(d1, v.D());
    FilledSame(bs / 4, d0, d1, v.D(), v.live, WritePlaces(bs, h.ino, off, |buf|));
    SoundIntro(v);
    ConsistentIs(v);
    OpenIntro(v, h);
  }

  lemma WrittenNothing(bs: nat, d: Disk, live: set<nat>, ino: nat, off: nat)
    requires BlockSizeOk(bs)
    ensures Written(bs, d, d, live, ino, off, [])
  {
  }

  lemma NeedsNothing(bs: nat, d: Disk, ino: nat, off: nat)
    requires BlockSizeOk(bs)
    ensures WriteNeeds(bs, d, ino, off, 0) == {}
  {
  }

  lemma SpentRoom(d0: Disk, d: Disk, ino: nat, end: nat, owner0: map<nat, Pos>, owner: map<nat, Pos>,
                  groups0: seq<GroupDesc>, groups: seq<GroupDesc>, free0: nat, free: nat, needs0: nat, needs: nat)
    requires Spent(d0, d, ino, end, owner0, owner, groups0, groups, free0, free, needs0, needs) && needs0 <= free0
    ensures needs <= free
  {
  }

  lemma SpentFacts(d0: Disk, d: Disk, ino: nat, end: nat, owner0: map<nat, Pos>, owner: map<nat, Pos>,
                   groups0: seq<GroupDesc>, groups: seq<GroupDesc>, free0: nat, free: nat, needs0: nat, needs: nat)
    requires Spent(d0, d, ino, end, owner0, owner, groups0, groups, free0, free, needs0, needs)
    ensures Grew(d0, d, ino, end) && OwnersGrow(owner0, owner, ino)
    ensures free + needs0 == free0 + needs
    ensures needs == needs0 ==> owner == owner0 && groups == groups0
  {
  }

  /** The last step of a write: the recorded size catches up with the data. */
  lemma WriteComplete(bs: nat, d0: Disk, d1: Disk, d2: Disk, live: set<nat>, owner: map<nat, Pos>, ino: nat,
                      it: Cursor, off: nat, buf: seq<byte>)
    requires BlockSizeOk(bs) && ino in live && ino < |d1.inodes| && off + |buf| < TWO32
    requires Written(bs, d0, d1, live, ino, off, buf) && Grew(d0, d1, ino, off + |buf|)
    requires TreeInv(bs / 4, d1, live, owner) && CursorOk(bs, d1, ino, it) && SizesOk(d1, live)
      && SectorsOk(bs, d1, live, owner)
    requires ZeroTail(bs, d0, live)
    requires ino < |d2.inodes| && d2 == Disk(d1.blocks, d1.inodes[ino := d2.inodes[ino]])
    requires d2.inodes[ino] == d1.inodes[ino].(size := d2.inodes[ino].size)
    requires d2.inodes[ino].size == if off + |buf| > d1.inodes[ino].size then off + |buf| else d1.inodes[ino].size
    ensures TreeInv(bs / 4, d2, live, owner) && CursorOk(bs, d2, ino, it) && SizesOk(d2, live)
      && SectorsOk(bs, d2, live, owner)
    ensures ZeroTail(bs, d2, live)
    ensures Content(bs, d2, ino) == Overlay(Content(bs, d0, ino), off, buf)
    ensures OnlyContent(bs, d0, d2, live, ino) && SameSlots(d1, d2)
  {
    hide At, PosOk, BlockOf, ByteAt, CursorOk, TreeInv, FileBlocks;
    forall i, s ensures SlotAt(d2, i, s) == SlotAt(d1, i, s) { }
    SameSlotsTree(bs / 4, d1, d2, live, owner);
    SameSlotsBytes(bs, d1, d2, live);
    CursorSameSlots(bs, d1, d2, ino, it);
    assert d2.inodes == d0.inodes[ino := d2.inodes[ino]];
    assert Content(bs, d2, ino) == Overlay(Content(bs, d0, ino), off, buf);
    forall i | i in live && i != ino
      ensures Content(bs, d2, i) == Content(bs, d0, i)
    {
      SameContent(bs, d0, d2, i);
    }
  }
}
