/** The tree of links of every file: who points to which block, and what growing, writing and cutting a tree does to
    it. */
module Tree {
  import opened Bytes
  import opened BlockIndex

  const SLOTS: nat := 15

  lemma SlotCount()
    ensures SLOTS == 15
  {
  }

  datatype Inode = Inode(mode: bv16, size: nat, links: nat, iblocks: nat, block: seq<nat>)

  /** The part of the volume that files are read from: the blocks and the inode table (cell 0 is not used). */
  datatype Disk = Disk(blocks: seq<Block>, inodes: seq<Inode>)

  /** A place where a block number is kept: a slot of i_block, or entry k of the index block that `up` refers to. */
  datatype Pos = Slot(ino: nat, s: nat) | Entry(up: Pos, k: nat)

  function InoOf(p: Pos): nat {
    match p case Slot(i, _) => i case Entry(up, _) => InoOf(up)
  }

  function SlotOf(p: Pos): nat {
    match p case Slot(_, s) => s case Entry(up, _) => SlotOf(up)
  }

  function Depth(p: Pos): nat {
    match p case Slot(_, _) => 0 case Entry(up, _) => 1 + Depth(up)
  }

  /** Levels of index blocks under slot s: none for the 12 direct slots, then 1, 2 and 3. */
  function Levels(s: nat): nat {
    if s < DIRECT_LINKS then 0 else s - 11
  }

  ghost predicate PosOk(links: nat, p: Pos) {
    match p
    case Slot(_, s) => s < SLOTS
    case Entry(up, k) => k < links && PosOk(links, up) && Depth(up) < Levels(SlotOf(up))
  }

  ghost predicate Leaf(p: Pos) {
    Depth(p) == Levels(SlotOf(p))
  }

  function SlotAt(d: Disk, i: nat, s: nat): nat {
    if i < |d.inodes| && s < |d.inodes[i].block| then d.inodes[i].block[s] else 0
  }

  function LinkAt(d: Disk, b: nat, k: nat): nat {
    if 0 < b < |d.blocks| then Link(d.blocks[b], k) else 0
  }

  /** The block number kept at p, found by walking from the inode; 0 below a missing index block. */
  function At(d: Disk, p: Pos): nat {
    match p
    case Slot(i, s) => SlotAt(d, i, s)
    case Entry(up, k) => LinkAt(d, At(d, up), k)
  }

  ghost predicate Place(links: nat, live: set<nat>, p: Pos) {
    PosOk(links, p) && InoOf(p) in live
  }

  /** No block is reachable twice: `owner` gives the one place that refers to each reachable block. */
  ghost predicate TreeInv(links: nat, d: Disk, live: set<nat>, owner: map<nat, Pos>) {
    && (forall b | b in owner :: 0 < b < |d.blocks| && Place(links, live, owner[b]) && At(d, owner[b]) == b)
    && (forall p | Place(links, live, p) && At(d, p) != 0 :: At(d, p) in owner && owner[At(d, p)] == p)
  }

  /** TreeInv in the words of reachability: two places never hold the same block. */
  lemma NoSharing(links: nat, d: Disk, live: set<nat>, owner: map<nat, Pos>, p: Pos, q: Pos)
    requires TreeInv(links, d, live, owner)
    requires Place(links, live, p) && Place(links, live, q) && At(d, p) == At(d, q) != 0
    ensures p == q
  {
  }

  /** Some block is reachable twice, so that no `owner` there is would do. */
  ghost predicate Shared(links: nat, d: Disk, live: set<nat>) {
    exists p, q :: Place(links, live, p) && Place(links, live, q) && p != q && At(d, p) == At(d, q) != 0
  }

  lemma SharedIsNoTree(links: nat, d: Disk, live: set<nat>, owner: map<nat, Pos>)
    requires TreeInv(links, d, live, owner)
    ensures !Shared(links, d, live)
  {
    hide At, TreeInv;
    if Shared(links, d, live) {
      var p, q :| Place(links, live, p) && Place(links, live, q) && p != q && At(d, p) == At(d, q) != 0;
      NoSharing(links, d, live, owner, p, q);
    }
  }

  // ---- the path of one file block ----

  /** The place reached after following index[0..j]. */
  function Chain(ino: nat, index: seq<nat>, j: nat): Pos
    requires j < |index|
  {
    if j == 0 then Slot(ino, index[0]) else Entry(Chain(ino, index, j - 1), index[j])
  }

  /** Where the number of block n of file ino is kept. */
  function FilePos(links: nat, ino: nat, n: nat): Pos
    requires links > 0
  {
    Chain(ino, IndexOf(links, n), ModeOf(links, n))
  }

  lemma {:induction false} ChainShape(ino: nat, index: seq<nat>, j: nat)
    requires j < |index|
    ensures InoOf(Chain(ino, index, j)) == ino && SlotOf(Chain(ino, index, j)) == index[0]
      && Depth(Chain(ino, index, j)) == j
  {
    if j > 0 { ChainShape(ino, index, j - 1); }
  }

  lemma {:induction false} ChainOk(links: nat, ino: nat, index: seq<nat>, j: nat)
    requires |index| == 4 && index[0] < SLOTS && j <= ModeOfIndex(index) < 4
    requires forall t | 1 <= t < 4 :: index[t] < links
    ensures PosOk(links, Chain(ino, index, j))
    ensures Leaf(Chain(ino, index, j)) <==> j == ModeOfIndex(index)
  {
    ChainShape(ino, index, j);
    if j > 0 {
      ChainShape(ino, index, j - 1);
      ChainOk(links, ino, index, j - 1);
    }
  }

  lemma {:induction false} ChainInjective(ino: nat, index: seq<nat>, ino': nat, index': seq<nat>, j: nat)
    requires j < |index| && j < |index'| && Chain(ino, index, j) == Chain(ino', index', j)
    ensures ino == ino' && forall t | 0 <= t <= j :: index[t] == index'[t]
  {
    if j > 0 { ChainInjective(ino, index, ino', index', j - 1); }
  }

  /** Every place on a file block's path is well formed, and only the last one is a leaf. */
  lemma PathOk(links: nat, ino: nat, n: nat, j: nat)
    requires LinksOk(links) && n < Limit(links, 3) && j <= ModeOf(links, n)
    ensures PosOk(links, Chain(ino, IndexOf(links, n), j))
    ensures InoOf(Chain(ino, IndexOf(links, n), j)) == ino
    ensures Leaf(Chain(ino, IndexOf(links, n), j)) <==> j == ModeOf(links, n)
  {
    IndexInRange(links, n);
    ChainOk(links, ino, IndexOf(links, n), j);
    ChainShape(ino, IndexOf(links, n), j);
  }

  /** Two file blocks kept at the same place are the same block of the same file. */
  lemma FilePosInjective(links: nat, ino: nat, n: nat, ino': nat, n': nat)
    requires LinksOk(links) && n < Limit(links, 3) && n' < Limit(links, 3)
    requires FilePos(links, ino, n) == FilePos(links, ino', n')
    ensures ino == ino' && n == n'
  {
    var i, i' := IndexOf(links, n), IndexOf(links, n');
    IndexInRange(links, n);
    IndexInRange(links, n');
    ChainShape(ino, i, ModeOf(links, n));
    ChainShape(ino', i', ModeOf(links, n'));
    ChainInjective(ino, i, ino', i', ModeOf(links, n));
    assert i == i';
    IndexInjective(links, n, n');
  }

  // ---- writing a data block ----

  /** Blocks of d and d' agree except at b; the inodes' slots agree. */
  ghost predicate SameTreeBut(d: Disk, d': Disk, b: nat) {
    && |d'.blocks| == |d.blocks|
    && (forall c | 0 <= c < |d.blocks| && c != b :: d'.blocks[c] == d.blocks[c])
    && (forall i, s :: SlotAt(d', i, s) == SlotAt(d, i, s))
  }

  /** A write to a data block, or to a block no file reaches, moves no link. */
  lemma {:induction false} LeafWriteAt(links: nat, d: Disk, d': Disk, live: set<nat>, owner: map<nat, Pos>, b: nat,
                                       p: Pos)
    requires TreeInv(links, d, live, owner) && SameTreeBut(d, d', b)
    requires b in owner ==> Leaf(owner[b])
    requires Place(links, live, p)
    ensures At(d', p) == At(d, p)
  {
    if p.Entry? {
      LeafWriteAt(links, d, d', live, owner, b, p.up);
    }
  }

  lemma LeafWrite(links: nat, d: Disk, d': Disk, live: set<nat>, owner: map<nat, Pos>, b: nat)
    requires TreeInv(links, d, live, owner) && SameTreeBut(d, d', b)
    requires b in owner ==> Leaf(owner[b])
    ensures TreeInv(links, d', live, owner)
    ensures forall p | Place(links, live, p) :: At(d', p) == At(d, p)
  {
    forall p | Place(links, live, p)
      ensures At(d', p) == At(d, p)
    {
      LeafWriteAt(links, d, d', live, owner, b, p);
    }
  }

  // ---- grafting a path ----

  /** What allocate_new_data_block leaves on the device: new blocks `grown[p]`, one for each place p on a path
      that begins at q, each new index block holding the one link to the next new block, and the topmost new
      block entered at q. */
  ghost predicate Grafted(links: nat, d: Disk, d': Disk, owner: map<nat, Pos>, grown: map<Pos, nat>, q: Pos) {
    && q in grown
    && |d'.blocks| == |d.blocks|
    && (forall p | p in grown :: 0 < grown[p] < |d.blocks| && grown[p] !in owner)
    && (forall p, p' | p in grown && p' in grown && grown[p] == grown[p'] :: p == p')
    && (forall p | p in grown && p != q :: p.Entry? && p.up in grown)
    && (forall p | p in grown :: At(d, p) == 0)
    && (forall p, k: nat | p in grown && k < links ::
          LinkAt(d', grown[p], k) == if Entry(p, k) in grown then grown[Entry(p, k)] else 0)
    && (q.Entry? ==> At(d, q.up) != 0 && q.up !in grown)
    && (forall i, s :: SlotAt(d', i, s) == if q == Slot(i, s) then grown[q] else SlotAt(d, i, s))
    && (forall b, k: nat | b in owner && k < links ::
          LinkAt(d', b, k) == if q.Entry? && b == At(d, q.up) && k == q.k then grown[q] else LinkAt(d, b, k))
  }

  /** A graft changes the link of exactly the places it was made for. */
  lemma {:induction false} GraftAt(links: nat, d: Disk, d': Disk, live: set<nat>, owner: map<nat, Pos>,
                                   grown: map<Pos, nat>, q: Pos, p: Pos)
    requires TreeInv(links, d, live, owner) && Grafted(links, d, d', owner, grown, q)
    requires Place(links, live, p) && Place(links, live, q)
    ensures At(d', p) == if p in grown then grown[p] else At(d, p)
  {
    if p.Entry? {
      GraftAt(links, d, d', live, owner, grown, q, p.up);
      var c := At(d, p.up);
      if p.up in grown {
        assert At(d, p) == 0;
      } else if c != 0 {
        assert c in owner && owner[c] == p.up;
        if q.Entry? {
          assert owner[At(d, q.up)] == q.up;
        }
      }
    }
  }

  ghost function Inverse(grown: map<Pos, nat>): (r: map<nat, Pos>)
    ensures r.Keys == grown.Values
    ensures forall b | b in r :: r[b] in grown && grown[r[b]] == b
  {
    map b | b in grown.Values :: var p :| p in grown && grown[p] == b; p
  }

  /** The owners after a graft: each new block belongs to the place it was made for. */
  ghost function Adopt(owner: map<nat, Pos>, grown: map<Pos, nat>): map<nat, Pos> {
    owner + Inverse(grown)
  }

  /** A graft keeps every block reachable at most once; the new blocks are owned by the places they were made for. */
  lemma Graft(links: nat, d: Disk, d': Disk, live: set<nat>, owner: map<nat, Pos>, grown: map<Pos, nat>, q: Pos)
    requires TreeInv(links, d, live, owner) && Grafted(links, d, d', owner, grown, q)
    requires forall p | p in grown :: Place(links, live, p)
    ensures TreeInv(links, d', live, Adopt(owner, grown))
    ensures forall p | Place(links, live, p) :: At(d', p) == if p in grown then grown[p] else At(d, p)
  {
    forall p | Place(links, live, p)
      ensures At(d', p) == if p in grown then grown[p] else At(d, p)
    {
      GraftAt(links, d, d', live, owner, grown, q, p);
    }
    GraftOwner(links, d, d', live, owner, grown);
  }

  lemma GraftOwner(links: nat, d: Disk, d': Disk, live: set<nat>, owner: map<nat, Pos>, grown: map<Pos, nat>)
    requires TreeInv(links, d, live, owner) && |d'.blocks| == |d.blocks|
    requires forall p | p in grown :: 0 < grown[p] < |d.blocks| && grown[p] !in owner
    requires forall p, p' | p in grown && p' in grown && grown[p] == grown[p'] :: p == p'
    requires forall p | p in grown :: Place(links, live, p) && At(d, p) == 0
    requires forall p | Place(links, live, p) :: At(d', p) == if p in grown then grown[p] else At(d, p)
    ensures TreeInv(links, d', live, Adopt(owner, grown))
  {
    var inv := Inverse(grown);
    var all := owner + inv;
    forall p | p in grown
      ensures grown[p] in inv && inv[grown[p]] == p
    {
    }
    forall b | b in all
      ensures 0 < b < |d'.blocks| && Place(links, live, all[b]) && At(d', all[b]) == b
    {
      if b !in inv { assert At(d, owner[b]) == b != 0; }
    }
    forall p | Place(links, live, p) && At(d', p) != 0
      ensures At(d', p) in all && all[At(d', p)] == p
    {
    }
  }

  lemma {:induction false} ValuesSize(m: map<Pos, nat>)
    requires forall p, p' | p in m && p' in m && m[p] == m[p'] :: p == p'
    ensures |m.Values| == |m|
    decreases |m|
  {
    if m == map[] {
      assert m.Values == {};
    } else {
      var p :| p in m;
      var rest := m - {p};
      assert m.Values == rest.Values + {m[p]} by {
        forall x | x in m.Values ensures x in rest.Values + {m[p]} {
          var q :| q in m && m[q] == x;
          if q != p { assert q in rest && rest[q] == x; }
        }
        forall x | x in rest.Values ensures x in m.Values {
          var q :| q in rest && rest[q] == x;
          assert m[q] == x;
        }
      }
      assert m[p] !in rest.Values;
      assert m.Keys == rest.Keys + {p};
      assert |m.Keys| == |m| && |rest.Keys| == |rest|;
      ValuesSize(rest);
    }
  }

  lemma GraftedFile(owner: map<nat, Pos>, grown: map<Pos, nat>, ino: nat, i: nat, b: nat)
    requires forall p | p in grown :: InoOf(p) == ino && grown[p] !in owner
    ensures b in FileBlocks(Adopt(owner, grown), i) <==> b in FileBlocks(owner, i) || (i == ino && b in grown.Values)
    ensures b in grown.Values ==> b !in FileBlocks(owner, i)
  {
    hide InoOf;
    var inv := Inverse(grown);
    if b in grown.Values {
      assert b in inv && inv[b] in grown && grown[inv[b]] == b;
    }
  }

  /** A graft adds its new blocks to the file it was made for, and to no other. */
  lemma GraftFileBlocks(owner: map<nat, Pos>, grown: map<Pos, nat>, ino: nat)
    requires forall p | p in grown :: InoOf(p) == ino && grown[p] !in owner
    requires forall p, p' | p in grown && p' in grown && grown[p] == grown[p'] :: p == p'
    ensures |FileBlocks(Adopt(owner, grown), ino)| == |FileBlocks(owner, ino)| + |grown|
    ensures forall i | i != ino :: FileBlocks(Adopt(owner, grown), i) == FileBlocks(owner, i)
  {
    hide *;
    ValuesSize(grown);
    forall i
      ensures FileBlocks(Adopt(owner, grown), i)
        == FileBlocks(owner, i) + if i == ino then grown.Values else {}
    {
      GraftedFileSet(owner, grown, ino, i);
    }
    GraftedFileSet(owner, grown, ino, ino);
  }

  /** The owners of the blocks of all files but one. */
  ghost function OwnersBut(owner: map<nat, Pos>, ino: nat): map<nat, Pos> {
    map b | b in owner && InoOf(owner[b]) != ino :: owner[b]
  }

  /** From owner to owner' only file ino has gained blocks, and no block has changed hands. */
  ghost predicate OwnersGrow(owner: map<nat, Pos>, owner': map<nat, Pos>, ino: nat) {
    && OwnersBut(owner', ino) == OwnersBut(owner, ino)
    && forall b | b in owner :: b in owner' && owner'[b] == owner[b]
  }

  lemma GrowTwice(owner0: map<nat, Pos>, owner1: map<nat, Pos>, owner2: map<nat, Pos>, ino: nat)
    requires OwnersGrow(owner0, owner1, ino) && OwnersGrow(owner1, owner2, ino)
    ensures OwnersGrow(owner0, owner2, ino)
  {
    hide OwnersBut;
  }

  lemma GrowNot(owner: map<nat, Pos>, ino: nat)
    ensures OwnersGrow(owner, owner, ino)
  {
  }

  lemma GraftOwnersBut(owner: map<nat, Pos>, grown: map<Pos, nat>, ino: nat)
    requires forall p | p in grown :: InoOf(p) == ino && grown[p] !in owner
    ensures OwnersGrow(owner, Adopt(owner, grown), ino)
  {
    forall b
      ensures b in OwnersBut(Adopt(owner, grown), ino) <==> b in OwnersBut(owner, ino)
    {
      if b in grown.Values { assert b in Inverse(grown) && Inverse(grown)[b] in grown; }
    }
  }

  lemma GraftedFileSet(owner: map<nat, Pos>, grown: map<Pos, nat>, ino: nat, i: nat)
    requires forall p | p in grown :: InoOf(p) == ino && grown[p] !in owner
    ensures FileBlocks(Adopt(owner, grown), i) == if i == ino then FileBlocks(owner, i) + grown.Values
      else FileBlocks(owner, i)
    ensures FileBlocks(owner, i) !! grown.Values
  {
    hide *;
    forall b
      ensures b in FileBlocks(Adopt(owner, grown), i) <==> b in FileBlocks(owner, i) || (i == ino && b in grown.Values)
      ensures b in grown.Values ==> b !in FileBlocks(owner, i)
    {
      GraftedFile(owner, grown, ino, i, b);
    }
  }

  lemma AdoptKeys(owner: map<nat, Pos>, grown: map<Pos, nat>)
    ensures Adopt(owner, grown).Keys == owner.Keys + grown.Values
  {
  }

  // ---- cutting a tree ----

  ghost predicate Under(p: Pos, r: Pos) {
    p == r || (p.Entry? && Under(p.up, r))
  }

  /** The blocks reachable through place r. */
  ghost function Below(owner: map<nat, Pos>, r: Pos): set<nat> {
    set b | b in owner && Under(owner[b], r)
  }

  /** The blocks reachable through entries 0..k of r's index block. */
  ghost function BelowEntries(owner: map<nat, Pos>, r: Pos, k: nat): set<nat> {
    set b | b in owner && exists j | 0 <= j < k :: Under(owner[b], Entry(r, j))
  }

  lemma {:induction false} UnderDepth(p: Pos, r: Pos)
    requires Under(p, r)
    ensures Depth(r) <= Depth(p) && InoOf(p) == InoOf(r) && SlotOf(p) == SlotOf(r)
    ensures Depth(r) == Depth(p) ==> p == r
  {
    if p != r { UnderDepth(p.up, r); }
  }

  lemma {:induction false} UnderEntry(links: nat, p: Pos, r: Pos)
    requires PosOk(links, p) && Under(p, r) && p != r
    ensures exists k | 0 <= k < links :: Under(p, Entry(r, k))
  {
    if p.up == r {
      assert Under(p, Entry(r, p.k));
    } else {
      UnderEntry(links, p.up, r);
      var k :| 0 <= k < links && Under(p.up, Entry(r, k));
      assert Under(p, Entry(r, k));
    }
  }

  lemma {:induction false} UnderTrans(p: Pos, r: Pos, k: nat)
    requires Under(p, Entry(r, k))
    ensures Under(p, r) && p != r
  {
    UnderDepth(p, Entry(r, k));
    if p != Entry(r, k) { UnderTrans(p.up, r, k); }
  }

  lemma {:induction false} UnderOneEntry(p: Pos, r: Pos, j: nat, k: nat)
    requires Under(p, Entry(r, j)) && Under(p, Entry(r, k))
    ensures j == k
  {
    UnderDepth(p, Entry(r, j));
    UnderDepth(p, Entry(r, k));
    if p != Entry(r, j) && p != Entry(r, k) { UnderOneEntry(p.up, r, j, k); }
  }

  lemma {:induction false} UnderMissing(d: Disk, p: Pos, r: Pos)
    requires Under(p, r) && At(d, r) == 0
    ensures At(d, p) == 0
  {
    if p != r { UnderMissing(d, p.up, r); }
  }

  /** Nothing is reachable through a link that is 0. */
  lemma BelowMissing(links: nat, d: Disk, live: set<nat>, owner: map<nat, Pos>, r: Pos)
    requires TreeInv(links, d, live, owner) && At(d, r) == 0
    ensures Below(owner, r) == {}
  {
    forall b | b in owner && Under(owner[b], r)
      ensures false
    {
      UnderMissing(d, owner[b], r);
    }
  }

  /** Through a leaf only the data block is reachable. */
  lemma BelowLeaf(links: nat, d: Disk, live: set<nat>, owner: map<nat, Pos>, r: Pos)
    requires TreeInv(links, d, live, owner) && Place(links, live, r) && Leaf(r) && At(d, r) != 0
    ensures Below(owner, r) == {At(d, r)}
  {
    forall b | b in owner && Under(owner[b], r)
      ensures b == At(d, r)
    {
      UnderDepth(owner[b], r);
      DepthBound(links, owner[b]);
    }
  }

  lemma {:induction false} DepthBound(links: nat, p: Pos)
    requires PosOk(links, p)
    ensures Depth(p) <= Levels(SlotOf(p))
  {
    if p.Entry? { DepthBound(links, p.up); }
  }

  /** Through an inner place its index block is reachable, and what its entries lead to. */
  lemma BelowInner(links: nat, d: Disk, live: set<nat>, owner: map<nat, Pos>, r: Pos)
    requires TreeInv(links, d, live, owner) && Place(links, live, r) && At(d, r) != 0
    ensures At(d, r) !in BelowEntries(owner, r, links)
    ensures Below(owner, r) == BelowEntries(owner, r, links) + {At(d, r)}
  {
    forall b | b in owner
      ensures Under(owner[b], r) && owner[b] != r <==> exists j | 0 <= j < links :: Under(owner[b], Entry(r, j))
    {
      if Under(owner[b], r) && owner[b] != r {
        UnderEntry(links, owner[b], r);
      }
      if j :| 0 <= j < links && Under(owner[b], Entry(r, j)) {
        UnderTrans(owner[b], r, j);
      }
    }
  }

  /** One more entry adds what is below it, none of which was there before. */
  lemma BelowEntriesStep(owner: map<nat, Pos>, r: Pos, k: nat)
    ensures BelowEntries(owner, r, k + 1) == BelowEntries(owner, r, k) + Below(owner, Entry(r, k))
    ensures BelowEntries(owner, r, k) !! Below(owner, Entry(r, k))
  {
    forall b, j | b in owner && 0 <= j < k && Under(owner[b], Entry(r, j)) && Under(owner[b], Entry(r, k))
      ensures false
    {
      UnderOneEntry(owner[b], r, j, k);
    }
  }

  /** The blocks of one file: its data blocks and its index blocks. */
  ghost function FileBlocks(owner: map<nat, Pos>, ino: nat): set<nat> {
    set b | b in owner && InoOf(owner[b]) == ino
  }

  /** The blocks of file ino reachable through its first s slots. */
  ghost function SlotBlocks(owner: map<nat, Pos>, ino: nat, s: nat): set<nat> {
    set b | b in owner && InoOf(owner[b]) == ino && SlotOf(owner[b]) < s
  }

  lemma {:induction false} UnderSlot(p: Pos)
    ensures Under(p, Slot(InoOf(p), SlotOf(p)))
  {
    if p.Entry? { UnderSlot(p.up); }
  }

  lemma SlotBlocksStep(owner: map<nat, Pos>, ino: nat, s: nat)
    ensures SlotBlocks(owner, ino, s + 1) == SlotBlocks(owner, ino, s) + Below(owner, Slot(ino, s))
    ensures SlotBlocks(owner, ino, s) !! Below(owner, Slot(ino, s))
  {
    forall b | b in owner
      ensures Under(owner[b], Slot(ino, s)) <==> InoOf(owner[b]) == ino && SlotOf(owner[b]) == s
    {
      UnderSlot(owner[b]);
      if Under(owner[b], Slot(ino, s)) { UnderDepth(owner[b], Slot(ino, s)); }
    }
  }

  lemma {:induction false} SlotBound(links: nat, p: Pos)
    requires PosOk(links, p)
    ensures SlotOf(p) < SLOTS
  {
    if p.Entry? { SlotBound(links, p.up); }
  }

  lemma AllSlots(links: nat, d: Disk, live: set<nat>, owner: map<nat, Pos>, ino: nat)
    requires TreeInv(links, d, live, owner)
    ensures SlotBlocks(owner, ino, SLOTS) == FileBlocks(owner, ino)
  {
    forall b | b in owner
      ensures SlotOf(owner[b]) < SLOTS
    {
      SlotBound(links, owner[b]);
    }
  }

  // ---- inodes coming and going ----

  lemma {:induction false} SameAt(d: Disk, d': Disk, p: Pos)
    requires d'.blocks == d.blocks
    requires forall s :: SlotAt(d', InoOf(p), s) == SlotAt(d, InoOf(p), s)
    ensures At(d', p) == At(d, p)
  {
    if p.Entry? {
      assert InoOf(p.up) == InoOf(p);
      SameAt(d, d', p.up);
    } else {
      assert InoOf(p) == p.ino;
    }
  }

  /** A file that is gone takes its own blocks with it and no others. */
  lemma DropFile(links: nat, d: Disk, d': Disk, live: set<nat>, owner: map<nat, Pos>, ino: nat)
    requires TreeInv(links, d, live, owner)
    requires d'.blocks == d.blocks
    requires forall i, s | i != ino :: SlotAt(d', i, s) == SlotAt(d, i, s)
    ensures TreeInv(links, d', live - {ino}, owner - FileBlocks(owner, ino))
    ensures forall p | Place(links, live - {ino}, p) :: At(d', p) == At(d, p)
  {
    forall p | InoOf(p) != ino
      ensures At(d', p) == At(d, p)
    {
      SameAt(d, d', p);
    }
  }

  lemma {:induction false} EmptyFileAt(d: Disk, p: Pos)
    requires forall s :: SlotAt(d, InoOf(p), s) == 0
    ensures At(d, p) == 0
  {
    if p.Entry? {
      assert InoOf(p.up) == InoOf(p);
      EmptyFileAt(d, p.up);
    } else {
      assert InoOf(p) == p.ino;
    }
  }

  /** A new file without blocks joins the tree without touching it. */
  lemma AddFile(links: nat, d: Disk, d': Disk, live: set<nat>, owner: map<nat, Pos>, ino: nat)
    requires TreeInv(links, d, live, owner) && ino !in live
    requires d'.blocks == d.blocks
    requires forall i, s | i != ino :: SlotAt(d', i, s) == SlotAt(d, i, s)
    requires forall s :: SlotAt(d', ino, s) == 0
    ensures TreeInv(links, d', live + {ino}, owner)
    ensures forall p | Place(links, live, p) :: At(d', p) == At(d, p)
  {
    forall p
      ensures InoOf(p) != ino ==> At(d', p) == At(d, p)
      ensures InoOf(p) == ino ==> At(d', p) == 0
    {
      if InoOf(p) == ino { EmptyFileAt(d', p); } else { SameAt(d, d', p); }
    }
  }
}
