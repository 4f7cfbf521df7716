/** fs/vfs.c: reading and writing any run of bytes on a device that can only move whole sectors. */
module BlockDevice {
  import opened Arithmetic
  import opened Bytes

  ghost predicate Sectors(s: seq<seq<byte>>, n: nat) {
    n > 0 && forall i | 0 <= i < |s| :: |s[i]| == n
  }

  /** The flat image of sectors of n bytes each. */
  ghost function Flat(s: seq<seq<byte>>, n: nat): seq<byte>
    requires Sectors(s, n)
  {
    if s == [] then [] else Flat(s[..|s| - 1], n) + s[|s| - 1]
  }

  /** offset_akt / blksize and offset_akt % blksize. */
  function SectorOf(x: nat, n: nat): nat
    requires n > 0
  {
    x / n
  }

  function InSector(x: nat, n: nat): (r: nat)
    requires n > 0
    ensures r < n
  {
    x % n
  }

  lemma {:induction false} FlatSize(s: seq<seq<byte>>, n: nat)
    requires Sectors(s, n)
    ensures |Flat(s, n)| == |s| * n
  {
    if s != [] {
      FlatSize(s[..|s| - 1], n);
      assert (|s| - 1 + 1) * n == (|s| - 1) * n + n;
    }
  }

  /** The sectors in front of sector b fill the image up to b * n. */
  lemma {:induction false} FlatSplit(s: seq<seq<byte>>, n: nat, b: nat)
    requires Sectors(s, n) && b < |s|
    ensures Sectors(s[..b], n) && Sectors(s[b + 1..], n)
    ensures Flat(s, n) == Flat(s[..b], n) + s[b] + Flat(s[b + 1..], n)
  {
    var last := |s| - 1;
    if b < last {
      FlatSplit(s[..last], n, b);
      assert s[..last][..b] == s[..b];
      assert s[b + 1..][..|s| - b - 2] == s[..last][b + 1..];
    }
  }

  lemma Address(x: nat, n: nat, m: nat)
    requires n > 0 && x < m * n
    ensures x / n < m && x / n * n + x % n == x
  {
    if x / n >= m { MulMono(m, x / n, n); }
  }

  lemma SectorBounds(s: seq<seq<byte>>, n: nat, x: nat)
    requires Sectors(s, n) && x < |Flat(s, n)|
    ensures SectorOf(x, n) < |s| && |s[SectorOf(x, n)]| == n && |Flat(s[..SectorOf(x, n)], n)| + InSector(x, n) == x
  {
    hide Flat;
    FlatSize(s, n);
    Address(x, n, |s|);
    FlatSize(s[..x / n], n);
  }

  /** Reading inside one sector reads the image. */
  lemma FlatRead(s: seq<seq<byte>>, n: nat, x: nat, count: nat)
    requires Sectors(s, n) && x < |Flat(s, n)| && InSector(x, n) + count <= n
    ensures SectorOf(x, n) < |s| && x + count <= |Flat(s, n)| && |s[SectorOf(x, n)]| == n
    ensures s[SectorOf(x, n)][InSector(x, n)..InSector(x, n) + count] == Flat(s, n)[x..x + count]
  {
    hide Flat, SectorOf, InSector;
    SectorBounds(s, n, x);
    FlatSplit(s, n, SectorOf(x, n));
  }

  lemma OverlayInside(f: seq<byte>, x: seq<byte>, g: seq<byte>, off: nat, piece: seq<byte>)
    requires off + |piece| <= |x|
    ensures f + Overlay(x, off, piece) + g == Overlay(f + x + g, |f| + off, piece)
  {
  }

  /** Writing bytes into one sector writes them into the image. */
  lemma FlatWrite(s: seq<seq<byte>>, n: nat, x: nat, piece: seq<byte>)
    requires Sectors(s, n) && x < |Flat(s, n)| && InSector(x, n) + |piece| <= n
    ensures SectorOf(x, n) < |s|
    ensures var t := s[SectorOf(x, n) := Overlay(s[SectorOf(x, n)], InSector(x, n), piece)];
      Sectors(t, n) && Flat(t, n) == Overlay(Flat(s, n), x, piece) && |Flat(t, n)| == |Flat(s, n)|
  {
    hide Flat, SectorOf, InSector, Overlay;
    SectorBounds(s, n, x);
    var b := SectorOf(x, n);
    var t := s[b := Overlay(s[b], InSector(x, n), piece)];
    FlatSplit(s, n, b);
    FlatSplit(t, n, b);
    assert t[..b] == s[..b] && t[b + 1..] == s[b + 1..];
    OverlayInside(Flat(s[..b], n), s[b], Flat(s[b + 1..], n), InSector(x, n), piece);
  }

  /** Two writes in a row, the second where the first ends, are one write. */
  lemma OverlayJoin(c: seq<byte>, o: nat, a: seq<byte>, b: seq<byte>)
    ensures Overlay(Overlay(c, o, a), o + |a|, b) == Overlay(c, o, a + b)
  {
  }

  lemma OverlayNothing(c: seq<byte>, o: nat)
    requires o <= |c|
    ensures Overlay(c, o, []) == c
  {
  }

  /** How many of the next bytes lie in the current sector. */
  function Count(x: nat, n: nat, left: nat): (c: nat)
    requires n > 0
    ensures c <= left && InSector(x, n) + c <= n && (left > 0 ==> c > 0)
  {
    if n - InSector(x, n) < left then n - InSector(x, n) else left
  }

  class Device {
    const blksize: nat
    var sectors: seq<seq<byte>>
    var fPos: nat

    ghost predicate Valid()
      reads this
    {
      Sectors(sectors, blksize) && |Image()| <= TWO32 && fPos <= |Image()|
    }

    ghost function Image(): seq<byte>
      requires Sectors(sectors, blksize)
      reads `sectors
    {
      Flat(sectors, blksize)
    }

    constructor (sectors: seq<seq<byte>>, blksize: nat)
      requires Sectors(sectors, blksize) && |Flat(sectors, blksize)| <= TWO32
      ensures Valid() && this.sectors == sectors && this.blksize == blksize && fPos == 0
    {
      this.sectors, this.blksize, fPos := sectors, blksize, 0;
    }

    /** The driver's readblk and writeblk, on a device that moves every sector in full. */
    method ReadBlk(index: nat) returns (buf: seq<byte>)
      requires index < |sectors|
      ensures buf == sectors[index]
    {
      buf := sectors[index];
    }

    method WriteBlk(index: nat, buf: seq<byte>)
      requires index < |sectors|
      modifies `sectors
      ensures sectors == old(sectors)[index := buf]
    {
      sectors := sectors[index := buf];
    }

    /** ddriv_read_blk. */
    method Read(count: nat) returns (buf: seq<byte>)
      requires Valid() && fPos + count <= |Image()|
      modifies `fPos
      ensures Valid() && fPos == old(fPos) + count
      ensures buf == Image()[old(fPos)..old(fPos) + count]
    {
      hide Flat, SectorOf, InSector;
      ghost var pos, image := fPos, Image();
      var offset, aktCount: nat := fPos, count;
      buf := [];
      while aktCount > 0
        invariant offset + aktCount == pos + count && pos <= offset
        invariant buf == image[pos..offset]
      {
        var n := Count(offset, blksize, aktCount);
        FlatRead(sectors, blksize, offset, n);
        var blk := ReadBlk(SectorOf(offset, blksize));
        assert image[pos..offset + n] == image[pos..offset] + image[offset..offset + n];
        buf := buf + blk[InSector(offset, blksize)..InSector(offset, blksize) + n];
        offset := offset + n;
        aktCount := aktCount - n;
      }
      fPos := offset;
    }

    /** ddriv_write_blk: a sector that is not overwritten in full is read first. What the sector buffer holds does not
        matter when all of it is overwritten. */
    method Write(buf: seq<byte>)
      requires Valid() && fPos + |buf| <= |Image()|
      modifies `fPos, `sectors
      ensures Valid() && fPos == old(fPos) + |buf|
      ensures Image() == Overlay(old(Image()), old(fPos), buf)
    {
      hide Flat, SectorOf, InSector, Overlay;
      ghost var pos, image := fPos, Image();
      var offset, aktCount: nat, done: nat := fPos, |buf|, 0;
      var blk := Zeros(blksize);
      OverlayNothing(image, pos);
      assert buf[..0] == [];
      while aktCount > 0
        invariant done + aktCount == |buf| && offset == pos + done && |blk| == blksize
        invariant Sectors(sectors, blksize) && Image() == Overlay(image, pos, buf[..done])
      {
        var n := Count(offset, blksize, aktCount);
        ghost var piece := buf[done..done + n];
        FlatRead(sectors, blksize, offset, n);
        FlatWrite(sectors, blksize, offset, piece);
        if n < blksize {
          blk := ReadBlk(SectorOf(offset, blksize));
        }
        SectorPatched(blk, sectors[SectorOf(offset, blksize)], InSector(offset, blksize), piece, blksize);
        blk := Overlay(blk, InSector(offset, blksize), buf[done..done + n]);
        WriteBlk(SectorOf(offset, blksize), blk);
        OverlayJoin(image, pos, buf[..done], piece);
        assert buf[..done] + piece == buf[..done + n];
        done := done + n;
        offset := offset + n;
        aktCount := aktCount - n;
      }
      assert buf[..done] == buf;
      fPos := offset;
    }
  }

  lemma SectorPatched(blk: seq<byte>, was: seq<byte>, off: nat, piece: seq<byte>, n: nat)
    requires |blk| == |was| == n && off + |piece| <= n && (blk == was || |piece| == n)
    ensures Overlay(blk, off, piece) == Overlay(was, off, piece) && |Overlay(blk, off, piece)| == n
  {
  }

  /** What is written in two pieces, at any alignment, reads back in one. */
  method WriteThenRead(d: Device, buf: seq<byte>, split: nat, pos: nat) returns (back: seq<byte>)
    requires d.Valid() && pos + |buf| <= |d.Image()| && split <= |buf|
    modifies d
    ensures d.Valid() && back == buf && d.Image() == Overlay(old(d.Image()), pos, buf)
  {
    hide Flat;
    d.fPos := pos;
    d.Write(buf[..split]);
    d.Write(buf[split..]);
    OverlayJoin(old(d.Image()), pos, buf[..split], buf[split..]);
    assert buf[..split] + buf[split..] == buf;
    d.fPos := pos;
    back := d.Read(|buf|);
  }
}
