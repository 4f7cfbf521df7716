/** Where things are on an ext2 volume: block groups, block and inode numbers, and the offset of an inode record. */
module Layout {
  import opened Arithmetic
  import opened Bytes

  const INODE_RECORD: nat := 128

  /** The superblock fields and descriptor addresses that stay as they were when the volume was made. */
  datatype Geometry = Geometry(
    blockSize: nat,
    blocksCount: nat,
    firstDataBlock: nat,
    blocksPerGroup: nat,
    inodesPerGroup: nat,
    inodeTable: seq<nat>)
  {
    /** num_block_groups */
    function Groups(): nat
      requires blocksPerGroup > 0
    {
      (blocksCount + (blocksPerGroup - 1)) / blocksPerGroup
    }

    /** Block numbers below this one can be reached through the bitmaps. */
    function BlockBound(): nat {
      blocksCount + firstDataBlock
    }

    /** blk_group_to_blk_num */
    function GroupStart(g: nat): nat {
      g * blocksPerGroup + firstDataBlock
    }

    /** blk_num_to_blk_group */
    function GroupOf(b: nat): nat
      requires blocksPerGroup > 0 && firstDataBlock <= b
    {
      (b - firstDataBlock) / blocksPerGroup
    }

    /** get_first_data_block_in_block_group */
    function FirstDataBlockOf(g: nat): nat
      requires blockSize > 0 && g < |inodeTable|
    {
      inodeTable[g] + inodesPerGroup * INODE_RECORD / blockSize
    }

    /** get_first_data_block_pos_in_block_group_bitmap */
    function FirstBit(g: nat): int
      requires blockSize > 0 && g < |inodeTable|
    {
      FirstDataBlockOf(g) - GroupStart(g)
    }

    /** get_last_data_block_pos_in_block_group_bitmap */
    function LastBit(g: nat): int
      requires blocksPerGroup > 0
    {
      if g == Groups() - 1 then blocksCount - (Groups() - 1) * blocksPerGroup - 1 else blocksPerGroup - 1
    }

    /** What the code takes for granted about a volume. */
    ghost predicate Ok() {
      && (blockSize == 1024 || blockSize == 2048)
      && 0 < blocksPerGroup <= 8 * blockSize
      && 0 < inodesPerGroup <= 8 * blockSize
      && inodesPerGroup * INODE_RECORD % blockSize == 0
      && 0 < blocksCount
      && BlockBound() * blockSize <= TWO32
      && |inodeTable| == Groups()
      && Groups() * inodesPerGroup < TWO32
      && forall g | 0 <= g < Groups() :: inodeTable[g] > 0 && FirstBit(g) >= 0
    }

    /** Bit i of group g's bitmap stands for a block that may hold file data. */
    ghost predicate DataBit(g: nat, i: nat)
      requires Ok()
    {
      g < Groups() && FirstBit(g) <= i <= LastBit(g)
    }

    /** The block that bit i of group g stands for, as allocate_block computes it. */
    function BlockNo(g: nat, i: nat): int
      requires blockSize > 0 && g < |inodeTable|
    {
      FirstDataBlockOf(g) + i - FirstBit(g)
    }

    /** deallocate_block: the bit of block b in its group's bitmap. */
    function BitOf(b: nat): int
      requires blocksPerGroup > 0 && firstDataBlock <= b
    {
      b - GroupStart(GroupOf(b))
    }

    /** Block b lies in the data range of some group. */
    ghost predicate DataBlock(b: int)
      requires Ok()
    {
      firstDataBlock <= b && BitOf(b) >= 0 && DataBit(GroupOf(b), BitOf(b))
    }

    function InodeCount(): nat
      requires blocksPerGroup > 0
    {
      Groups() * inodesPerGroup
    }

    /** get_first_inode_index_in_block_group(g) + i, as allocate_new_inode computes it. */
    function InodeNo(g: nat, i: nat): (ino: nat)
      ensures ino > 0
    {
      1 + g * inodesPerGroup + i
    }

    function InodeGroup(ino: nat): nat
      requires inodesPerGroup > 0 && ino > 0
    {
      (ino - 1) / inodesPerGroup
    }

    function InodeBit(ino: nat): nat
      requires inodesPerGroup > 0 && ino > 0
    {
      (ino - 1) % inodesPerGroup
    }

    predicate IsInode(ino: nat)
      requires blocksPerGroup > 0
    {
      0 < ino <= InodeCount()
    }

    /** read_inode_ext2: the device offset of an inode record. */
    function InodeOffset(ino: nat): nat
      requires inodesPerGroup > 0 && ino > 0
      requires InodeGroup(ino) < |inodeTable|
    {
      inodeTable[InodeGroup(ino)] * blockSize + InodeBit(ino) * INODE_RECORD
    }
  }

  lemma GroupsBounds(geo: Geometry)
    requires geo.blocksPerGroup > 0 && geo.blocksCount > 0
    ensures geo.Groups() > 0
    ensures (geo.Groups() - 1) * geo.blocksPerGroup < geo.blocksCount <= geo.Groups() * geo.blocksPerGroup
  {
    var n := geo.blocksPerGroup;
    var a := geo.blocksCount + (n - 1);
    var q, r := a / n, a % n;
    assert a == q * n + r && 0 <= r < n;
    assert (q - 1) * n == q * n - n;
  }

  lemma LastBitInside(geo: Geometry, g: nat)
    requires geo.Ok() && g < geo.Groups()
    ensures geo.LastBit(g) < geo.blocksPerGroup
    ensures g * geo.blocksPerGroup + geo.LastBit(g) < geo.blocksCount
  {
    hide *;
    GroupsBounds(geo) by { assert geo.blocksPerGroup > 0 && geo.blocksCount > 0 by { OkBasics(geo); } }
    OkBasics(geo);
    LastBitCases(geo, g);
    var ng, n := geo.Groups(), geo.blocksPerGroup;
    assert (ng - 1) * n + n == ng * n;
    if g < ng - 1 {
      MulMono(g + 1, ng - 1, n);
      assert (g + 1) * n == g * n + n;
    }
  }

  lemma OkBasics(geo: Geometry)
    requires geo.Ok()
    ensures geo.blocksPerGroup > 0 && geo.blocksCount > 0
  {
  }

  lemma LastBitCases(geo: Geometry, g: nat)
    requires geo.blocksPerGroup > 0
    ensures geo.LastBit(g) ==
      if g == geo.Groups() - 1 then geo.blocksCount - (geo.Groups() - 1) * geo.blocksPerGroup - 1
      else geo.blocksPerGroup - 1
  {
  }

  /** A data bit's last position is inside its group, so it names a block of that group and of the volume. */
  lemma DataBitBounds(geo: Geometry, g: nat, i: nat)
    requires geo.Ok() && geo.DataBit(g, i)
    ensures i < geo.blocksPerGroup && i / 8 < geo.blockSize
    ensures geo.BlockNo(g, i) == geo.GroupStart(g) + i
    ensures 0 < geo.BlockNo(g, i) < geo.BlockBound()
  {
    GroupsBounds(geo);
    LastBitInside(geo, g);
    assert i / 8 < geo.blockSize by { assert i < 8 * geo.blockSize; }
  }

  /** allocate_block's block number decodes, in deallocate_block, to the group and bit it was built from. */
  lemma BlockAddressInverse(geo: Geometry, g: nat, i: nat)
    requires geo.Ok() && geo.DataBit(g, i)
    ensures geo.DataBlock(geo.BlockNo(g, i))
    ensures geo.GroupOf(geo.BlockNo(g, i)) == g && geo.BitOf(geo.BlockNo(g, i)) == i
  {
    DataBitBounds(geo, g, i);
    DivUnique(geo.BlockNo(g, i) - geo.firstDataBlock, geo.blocksPerGroup, g, i);
  }

  /** ... and every data block is the block of its own group and bit. */
  lemma BlockAddressOf(geo: Geometry, b: nat)
    requires geo.Ok() && geo.DataBlock(b)
    ensures geo.DataBit(geo.GroupOf(b), geo.BitOf(b))
    ensures geo.BlockNo(geo.GroupOf(b), geo.BitOf(b)) == b
    ensures 0 < b < geo.BlockBound()
  {
    DataBitBounds(geo, geo.GroupOf(b), geo.BitOf(b));
  }

  /** The numbers spelled out. */
  lemma NumbersSpelled(geo: Geometry, g: nat, i: nat)
    requires geo.Ok() && g < geo.Groups()
    ensures geo.BlockNo(g, i) == geo.firstDataBlock + g * geo.blocksPerGroup + i
    ensures geo.InodeNo(g, i) == g * geo.inodesPerGroup + i + 1
    ensures geo.FirstBit(g) == geo.inodeTable[g] + geo.inodesPerGroup * 128 / geo.blockSize
      - (geo.firstDataBlock + g * geo.blocksPerGroup)
  {
  }

  lemma RecordSpelled(geo: Geometry, ino: nat)
    requires geo.Ok() && geo.IsInode(ino)
    ensures var g := (ino - 1) / geo.inodesPerGroup;
      g < geo.Groups()
      && geo.InodeOffset(ino) == geo.inodeTable[g] * geo.blockSize + 128 * ((ino - 1) % geo.inodesPerGroup)
  {
    InodeAddressOf(geo, ino);
    assert geo.InodeGroup(ino) == (ino - 1) / geo.inodesPerGroup;
    assert geo.InodeBit(ino) == (ino - 1) % geo.inodesPerGroup;
    hide Geometry.Groups, Geometry.IsInode;
  }

  /** An inode number built from (group, bit) decodes to that group and bit, and is in range. */
  lemma InodeAddressInverse(geo: Geometry, g: nat, i: nat)
    requires geo.Ok() && g < geo.Groups() && i < geo.inodesPerGroup
    ensures geo.IsInode(geo.InodeNo(g, i))
    ensures geo.InodeGroup(geo.InodeNo(g, i)) == g && geo.InodeBit(geo.InodeNo(g, i)) == i
  {
    DivUnique(geo.InodeNo(g, i) - 1, geo.inodesPerGroup, g, i);
    MulMono(g + 1, geo.Groups(), geo.inodesPerGroup);
    assert (g + 1) * geo.inodesPerGroup == g * geo.inodesPerGroup + geo.inodesPerGroup;
  }

  /** ... and every inode number is the number of its own group and bit. */
  lemma InodeAddressOf(geo: Geometry, ino: nat)
    requires geo.Ok() && geo.IsInode(ino)
    ensures geo.InodeGroup(ino) < geo.Groups() && geo.InodeBit(ino) < geo.inodesPerGroup
    ensures geo.InodeNo(geo.InodeGroup(ino), geo.InodeBit(ino)) == ino
  {
    var n, q := geo.inodesPerGroup, geo.InodeGroup(ino);
    assert ino - 1 == q * n + (ino - 1) % n;
    if q >= geo.Groups() {
      MulMono(geo.Groups(), q, n);
    }
  }

  /** An inode record lies inside the inode table of its group, in front of the group's data blocks. */
  lemma InodeRecordInTable(geo: Geometry, ino: nat)
    requires geo.Ok() && geo.IsInode(ino)
    ensures geo.InodeGroup(ino) < geo.Groups()
    ensures geo.inodeTable[geo.InodeGroup(ino)] * geo.blockSize <= geo.InodeOffset(ino)
    ensures geo.InodeOffset(ino) + INODE_RECORD <= geo.FirstDataBlockOf(geo.InodeGroup(ino)) * geo.blockSize
  {
    InodeAddressOf(geo, ino);
    var bs, t, n := geo.blockSize, geo.inodeTable[geo.InodeGroup(ino)], geo.inodesPerGroup;
    var k := n * INODE_RECORD / bs;
    assert n * INODE_RECORD == k * bs;
    assert (t + k) * bs == t * bs + k * bs;
    assert (geo.InodeBit(ino) + 1) * INODE_RECORD <= n * INODE_RECORD;
  }

  /** The inode tables of different groups lie apart. */
  ghost predicate TablesApart(geo: Geometry)
    requires geo.Ok()
  {
    forall g: nat, h: nat | g < geo.Groups() && h < geo.Groups() && g != h ::
      geo.FirstDataBlockOf(g) <= geo.inodeTable[h] || geo.FirstDataBlockOf(h) <= geo.inodeTable[g]
  }

  /** Records of different inodes do not overlap: in one group never, in two where their tables lie apart. */
  lemma InodeRecordsDisjoint(geo: Geometry, i: nat, j: nat)
    requires geo.Ok() && geo.IsInode(i) && geo.IsInode(j) && i != j
    requires geo.InodeGroup(i) == geo.InodeGroup(j) || TablesApart(geo)
    ensures geo.InodeGroup(i) < geo.Groups() && geo.InodeGroup(j) < geo.Groups()
    ensures geo.InodeOffset(i) + INODE_RECORD <= geo.InodeOffset(j)
      || geo.InodeOffset(j) + INODE_RECORD <= geo.InodeOffset(i)
  {
    InodeAddressOf(geo, i);
    InodeAddressOf(geo, j);
    InodeRecordInTable(geo, i);
    InodeRecordInTable(geo, j);
    var g, h, bs := geo.InodeGroup(i), geo.InodeGroup(j), geo.blockSize;
    hide Geometry.Ok, Geometry.InodeGroup, Geometry.IsInode, Geometry.FirstDataBlockOf, Geometry.InodeNo;
    if g != h {
      hide Geometry.InodeOffset;
      if geo.FirstDataBlockOf(g) <= geo.inodeTable[h] {
        MulMono(geo.FirstDataBlockOf(g), geo.inodeTable[h], bs);
      } else {
        MulMono(geo.FirstDataBlockOf(h), geo.inodeTable[g], bs);
      }
    } else {
      assert geo.InodeBit(i) != geo.InodeBit(j);
    }
  }

  /** The last bit the allocator may hand out names a block of the device exactly when s_first_data_block is 0:
      with 1 it names block s_blocks_count, one past the end. */
  lemma LastBitOnDevice(geo: Geometry)
    requires geo.Ok() && geo.LastBit(geo.Groups() - 1) >= geo.FirstBit(geo.Groups() - 1)
    ensures geo.BlockNo(geo.Groups() - 1, geo.LastBit(geo.Groups() - 1)) < geo.blocksCount <==> geo.firstDataBlock == 0
  {
    GroupsBounds(geo);
    var g := geo.Groups() - 1;
    DataBitBounds(geo, g, geo.LastBit(g));
  }
}
