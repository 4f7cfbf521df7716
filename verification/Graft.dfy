/** allocate_new_data_block: gives a file a block at an offset where it has none, with the index blocks it takes. */
module Grafting {
  import opened Arithmetic
  import opened Bytes
  import opened BlockIndex
  import opened Layout
  import opened Accounting
  import opened Bitmap
  import opened Tree
  import opened Contents
  import opened Volumes
  import opened FileHandles

  /** Places j..mode of the path that an index vector describes. */
  ghost function ChainSet(ino: nat, index: seq<nat>, j: nat, mode: nat): (r: set<Pos>)
    requires mode < |index|
    ensures forall t: nat | j <= t <= mode :: Chain(ino, index, t) in r
    ensures forall p | p in r :: j <= Depth(p) <= mode && p == Chain(ino, index, Depth(p))
    decreases mode + 1 - j
  {
    if j > mode then {}
    else
      ChainShape(ino, index, j);
      {Chain(ino, index, j)} + ChainSet(ino, index, j + 1, mode)
  }

  /** The places on the path to block n of file ino: one for each level of index blocks, and the block's own. */
  ghost function PathSet(links: nat, ino: nat, n: nat): set<Pos>
    requires links > 0
  {
    ChainSet(ino, IndexOf(links, n), 0, ModeOf(links, n))
  }

  /** The places of ps that still hold 0. */
  ghost function Missing(d: Disk, ps: set<Pos>): set<Pos> {
    set p | p in ps && At(d, p) == 0
  }

  /** scratch_blk: an index block whose only link is entry k. */
  function IndexBlock(bs: nat, k: nat, w: nat): Block {
    if 4 * k + 4 <= bs && w < TWO32 then PutLink(Zeros(bs), k, w) else Zeros(bs)
  }

  /** The state of the bottom-up loop: new blocks stand for levels j..mode of the path, chained by one link each. */
  ghost predicate Building(bs: nat, d: Disk, blocks: seq<Block>, owner: map<nat, Pos>, ino: nat, index: seq<nat>,
                           j: nat, mode: nat, grown: map<Pos, nat>)
    requires |index| == 4 && j <= mode <= 3
  {
    && |blocks| == |d.blocks|
    && grown.Keys == ChainSet(ino, index, j, mode)
    && GrownFresh(d, owner, grown, |blocks|) && Unbuilt(d, blocks, grown)
    && ChainLinks(bs, blocks, ino, index, j, mode, grown)
  }

  /** The new blocks are different ones that nobody owned, for places that held nothing. */
  ghost predicate GrownFresh(d: Disk, owner: map<nat, Pos>, grown: map<Pos, nat>, n: nat) {
    && (forall p | p in grown :: 0 < grown[p] < n && grown[p] < TWO32 && grown[p] !in owner && At(d, p) == 0)
    && (forall p, p' | p in grown && p' in grown && grown[p] == grown[p'] :: p == p')
  }

  /** All other blocks are as they were. */
  ghost predicate Unbuilt(d: Disk, blocks: seq<Block>, grown: map<Pos, nat>) {
    |blocks| == |d.blocks| && forall b | 0 <= b < |blocks| && b !in grown.Values :: blocks[b] == d.blocks[b]
  }

  /** Each new index block holds the link to the new block below it, and the data block is zero-filled. */
  ghost predicate ChainLinks(bs: nat, blocks: seq<Block>, ino: nat, index: seq<nat>, j: nat, mode: nat,
                             grown: map<Pos, nat>)
    requires |index| == 4 && j <= mode <= 3
  {
    && (forall t: nat | j <= t <= mode :: Chain(ino, index, t) in grown && grown[Chain(ino, index, t)] < |blocks|)
    && (forall t: nat | j < t <= mode ::
          blocks[grown[Chain(ino, index, t - 1)]] == IndexBlock(bs, index[t], grown[Chain(ino, index, t)]))
    && blocks[grown[Chain(ino, index, mode)]] == Zeros(bs)
  }

  lemma ChainsDiffer(ino: nat, index: seq<nat>, s: nat, t: nat)
    requires s < |index| && t < |index| && Chain(ino, index, s) == Chain(ino, index, t)
    ensures s == t
  {
    ChainShape(ino, index, s);
    ChainShape(ino, index, t);
  }

  lemma BuildStep(bs: nat, d: Disk, blocks: seq<Block>, blocks': seq<Block>, owner: map<nat, Pos>, ino: nat,
                  index: seq<nat>,
                  j: nat, mode: nat, grown: map<Pos, nat>, b: nat)
    requires |index| == 4 && 0 < j <= mode <= 3
    requires Building(bs, d, blocks, owner, ino, index, j, mode, grown)
    requires 0 < b < |blocks| && b < TWO32 && b !in owner && b !in grown.Values
    requires At(d, Chain(ino, index, j - 1)) == 0
    requires blocks' == blocks[b := IndexBlock(bs, index[j], grown[Chain(ino, index, j)])]
    ensures Chain(ino, index, j - 1) !in grown
    ensures Building(bs, d, blocks', owner, ino, index, j - 1, mode, grown[Chain(ino, index, j - 1) := b])
  {
    hide *;
    BuildingIs(bs, d, blocks, owner, ino, index, j, mode, grown);
    ChainTop(bs, blocks, ino, index, j, mode, grown);
    var c, x := Chain(ino, index, j - 1), IndexBlock(bs, index[j], grown[Chain(ino, index, j)]);
    GrowPath(ino, index, j, mode, grown, b);
    StepBlocks(d, blocks, blocks', grown, c, b, x);
    StepGrown(d, owner, grown, c, b, |blocks|);
    StepChain(bs, blocks, blocks', ino, index, j, mode, grown, b);
    BuildingIs(bs, d, blocks', owner, ino, index, j - 1, mode, grown[c := b]);
  }

  lemma BuildingIs(bs: nat, d: Disk, blocks: seq<Block>, owner: map<nat, Pos>, ino: nat, index: seq<nat>, j: nat,
                   mode: nat, grown: map<Pos, nat>)
    requires |index| == 4 && j <= mode <= 3
    ensures Building(bs, d, blocks, owner, ino, index, j, mode, grown) <==>
      && |blocks| == |d.blocks|
      && grown.Keys == ChainSet(ino, index, j, mode)
      && GrownFresh(d, owner, grown, |blocks|) && Unbuilt(d, blocks, grown)
      && ChainLinks(bs, blocks, ino, index, j, mode, grown)
  {
  }

  lemma ChainTop(bs: nat, blocks: seq<Block>, ino: nat, index: seq<nat>, j: nat, mode: nat, grown: map<Pos, nat>)
    requires |index| == 4 && j <= mode <= 3 && ChainLinks(bs, blocks, ino, index, j, mode, grown)
    ensures Chain(ino, index, j) in grown && grown[Chain(ino, index, j)] < |blocks|
  {
    hide Chain, IndexBlock;
  }

  lemma StepGrown(d: Disk, owner: map<nat, Pos>, grown: map<Pos, nat>, c: Pos, b: nat, n: nat)
    requires GrownFresh(d, owner, grown, n) && c !in grown && b !in grown.Values
    requires 0 < b < n && b < TWO32 && b !in owner && At(d, c) == 0
    ensures GrownFresh(d, owner, grown[c := b], n)
  {
    hide At;
    forall p | p in grown ensures grown[p] != b { assert grown[p] in grown.Values; }
  }

  lemma InChainSet(ino: nat, index: seq<nat>, j: nat, mode: nat)
    requires j <= mode < |index|
    ensures forall t: nat | j <= t <= mode :: Chain(ino, index, t) in ChainSet(ino, index, j, mode)
  {
    forall t: nat | j <= t <= mode
      ensures Chain(ino, index, t) in ChainSet(ino, index, j, mode)
    {
      ChainShape(ino, index, t);
    }
  }

  lemma StepBlocks(d: Disk, blocks: seq<Block>, blocks': seq<Block>, grown: map<Pos, nat>, c: Pos, b: nat, x: Block)
    requires Unbuilt(d, blocks, grown) && b < |blocks| && blocks' == blocks[b := x] && c !in grown
    requires grown[c := b].Values == grown.Values + {b}
    ensures Unbuilt(d, blocks', grown[c := b])
  {
  }

  lemma StepChain(bs: nat, blocks: seq<Block>, blocks': seq<Block>, ino: nat, index: seq<nat>, j: nat, mode: nat,
                  grown: map<Pos, nat>, b: nat)
    requires |index| == 4 && 0 < j <= mode <= 3 && b < |blocks| && b !in grown.Values
    requires ChainLinks(bs, blocks, ino, index, j, mode, grown) && Chain(ino, index, j - 1) !in grown
    requires Chain(ino, index, j) in grown
      && blocks' == blocks[b := IndexBlock(bs, index[j], grown[Chain(ino, index, j)])]
    ensures ChainLinks(bs, blocks', ino, index, j - 1, mode, grown[Chain(ino, index, j - 1) := b])
  {
    hide IndexBlock, Chain;
    var c := Chain(ino, index, j - 1);
    var grown' := grown[c := b];
    forall t: nat | j <= t <= mode
      ensures grown'[Chain(ino, index, t)] == grown[Chain(ino, index, t)] != b
    {
      assert grown[Chain(ino, index, t)] in grown.Values;
    }
    forall t: nat | j - 1 < t <= mode
      ensures blocks'[grown'[Chain(ino, index, t - 1)]] == IndexBlock(bs, index[t], grown'[Chain(ino, index, t)])
    {
      if t > j {
        assert Chain(ino, index, t - 1) in grown;
      }
    }
  }

  lemma GrowPath(ino: nat, index: seq<nat>, j: nat, mode: nat, grown: map<Pos, nat>, b: nat)
    requires |index| == 4 && 0 < j <= mode <= 3 && b !in grown.Values
    requires grown.Keys == ChainSet(ino, index, j, mode)
    ensures Chain(ino, index, j - 1) !in grown
    ensures var grown' := grown[Chain(ino, index, j - 1) := b];
      && grown'.Keys == ChainSet(ino, index, j - 1, mode)
      && grown'.Values == grown.Values + {b}
      && (forall p | p in grown :: grown'[p] == grown[p] != b)
  {
    var c := Chain(ino, index, j - 1);
    forall t: nat | j <= t <= mode
      ensures Chain(ino, index, t) != c
    {
      if Chain(ino, index, t) == c { ChainsDiffer(ino, index, t, j - 1); }
    }
    hide Chain;
    var grown' := grown[c := b];
    forall p | p in grown ensures grown'[p] == grown[p] != b { assert grown[p] in grown.Values; }
    assert grown'[c] == b;
    forall x | x in grown.Values ensures x in grown'.Values {
      var p :| p in grown && grown[p] == x;
      assert grown'[p] == x;
    }
    assert c in ChainSet(ino, index, j - 1, mode);
  }

  /** How the finished path is entered: through the inode's slot, or through one link of an existing index block. */
  ghost predicate Attached(bs: nat, d: Disk, blocks: seq<Block>, d': Disk, ino: nat, index: seq<nat>, j: nat,
                           first: nat)
    requires |index| == 4 && j <= 3
  {
    if j == 0 then
      && d'.blocks == blocks
      && (forall i, s :: SlotAt(d', i, s) == if i == ino && s == index[0] then first else SlotAt(d, i, s))
    else
      var b := At(d, Chain(ino, index, j - 1));
      && 0 < b < |blocks|
      && 4 * index[j] + 4 <= |blocks[b]| && first < TWO32
      && d'.blocks == blocks[b := PutLink(blocks[b], index[j], first)]
      && (forall i, s :: SlotAt(d', i, s) == SlotAt(d, i, s))
  }

  lemma BuildDone(bs: nat, d: Disk, blocks: seq<Block>, d': Disk, live: set<nat>, owner: map<nat, Pos>, ino: nat,
                  n: nat,
                  j: nat, grown: map<Pos, nat>)
    requires BlockSizeOk(bs) && TreeInv(bs / 4, d, live, owner) && ino in live && n < Limit(bs / 4, 3)
    requires j <= ModeOf(bs / 4, n)
    requires Building(bs, d, blocks, owner, ino, IndexOf(bs / 4, n), j, ModeOf(bs / 4, n), grown)
    requires Attached(bs, d, blocks, d', ino, IndexOf(bs / 4, n), j, grown[Chain(ino, IndexOf(bs / 4, n), j)])
    ensures Grafted(bs / 4, d, d', owner, grown, Chain(ino, IndexOf(bs / 4, n), j))
    ensures forall p | p in grown :: Place(bs / 4, live, p)
    ensures forall p | p in grown && Leaf(p) :: d'.blocks[grown[p]] == Zeros(bs)
    ensures forall b | b in owner && (Leaf(owner[b]) || InoOf(owner[b]) != ino) :: d'.blocks[b] == d.blocks[b]
    ensures grown.Keys == Missing(d, PathSet(bs / 4, ino, n))
  {
    hide *;
    LinksPositive(bs);
    var links, index, mode := bs / 4, IndexOf(bs / 4, n), ModeOf(bs / 4, n);
    PathPlaces(links, live, ino, n);
    IndexFits(bs, n);
    BuiltSoFar(bs, d, blocks, owner, ino, index, j, mode, grown);
    GrownPlaces(links, live, ino, n, j, grown);
    AttachedFacts(bs, d, blocks, d', ino, index, j, grown[Chain(ino, index, j)]);
    var top := if j == 0 then 0 else At(d, Chain(ino, index, j - 1));
    if j > 0 {
      BuildTop(bs, d, live, owner, ino, index, j, grown);
    }
    BuildLinks(bs, d, blocks, d', owner, ino, index, j, mode, grown, top);
    OldLinks(bs, d, blocks, d', live, owner, ino, index, j, mode, grown);
    BuildShape(ino, index, j, mode, grown);
    BuildPath(d, ino, links, n, j, grown);
    GraftedIntro(links, d, d', owner, grown, Chain(ino, index, j));
  }

  lemma BuiltSoFar(bs: nat, d: Disk, blocks: seq<Block>, owner: map<nat, Pos>, ino: nat, index: seq<nat>, j: nat,
                   mode: nat, grown: map<Pos, nat>)
    requires |index| == 4 && j <= mode <= 3 && Building(bs, d, blocks, owner, ino, index, j, mode, grown)
    ensures |blocks| == |d.blocks| && grown.Keys == ChainSet(ino, index, j, mode)
    ensures forall p | p in grown :: 0 < grown[p] < |blocks| && grown[p] !in owner && At(d, p) == 0
    ensures forall p, p' | p in grown && p' in grown && grown[p] == grown[p'] :: p == p'
  {
    hide At, IndexBlock, ChainSet, Chain;
  }

  lemma GrownPlaces(links: nat, live: set<nat>, ino: nat, n: nat, j: nat, grown: map<Pos, nat>)
    requires LinksOk(links) && n < Limit(links, 3) && ino in live && j <= ModeOf(links, n)
    requires grown.Keys == ChainSet(ino, IndexOf(links, n), j, ModeOf(links, n))
    ensures forall p | p in grown ::
      Place(links, live, p) && (Leaf(p) ==> p == Chain(ino, IndexOf(links, n), ModeOf(links, n)))
  {
    assert links > 0;
    hide IndexOf, ModeOf, Limit, LinksOk, Place, Leaf, Chain;
    PathPlaces(links, live, ino, n);
    forall p | p in grown
      ensures Place(links, live, p) && (Leaf(p) ==> p == Chain(ino, IndexOf(links, n), ModeOf(links, n)))
    {
      assert p == Chain(ino, IndexOf(links, n), Depth(p));
    }
  }

  lemma LinksPositive(bs: nat)
    requires BlockSizeOk(bs)
    ensures LinksOk(bs / 4) && bs / 4 > 0
  {
  }

  lemma AttachedFacts(bs: nat, d: Disk, blocks: seq<Block>, d': Disk, ino: nat, index: seq<nat>, j: nat, first: nat)
    requires |index| == 4 && j <= 3 && Attached(bs, d, blocks, d', ino, index, j, first)
    ensures |d'.blocks| == |blocks|
    ensures forall i, s :: SlotAt(d', i, s) == if j == 0 && Slot(ino, index[0]) == Slot(i, s) then first
      else SlotAt(d, i, s)
    ensures forall b | 0 <= b < |blocks| && b != (if j == 0 then 0 else At(d, Chain(ino, index, j - 1))) ::
      d'.blocks[b] == blocks[b]
    ensures j > 0 ==> At(d, Chain(ino, index, j - 1)) != 0
  {
  }

  lemma GraftedIntro(links: nat, d: Disk, d': Disk, owner: map<nat, Pos>, grown: map<Pos, nat>, q: Pos)
    requires q in grown && |d'.blocks| == |d.blocks|
    requires forall p | p in grown :: 0 < grown[p] < |d.blocks| && grown[p] !in owner && At(d, p) == 0
    requires forall p, p' | p in grown && p' in grown && grown[p] == grown[p'] :: p == p'
    requires forall p | p in grown && p != q :: p.Entry? && p.up in grown
    requires forall p, k: nat | p in grown ::
      LinkAt(d', grown[p], k) == if Entry(p, k) in grown then grown[Entry(p, k)] else 0
    requires q.Entry? ==> At(d, q.up) != 0 && q.up !in grown
    requires forall i, s :: SlotAt(d', i, s) == if q == Slot(i, s) then grown[q] else SlotAt(d, i, s)
    requires forall b, k: nat | b in owner ::
          LinkAt(d', b, k) == if q.Entry? && b == At(d, q.up) && k == q.k then grown[q] else LinkAt(d, b, k)
    ensures Grafted(links, d, d', owner, grown, q)
  {
    hide At, LinkAt, SlotAt;
  }

  lemma IndexFits(bs: nat, n: nat)
    requires BlockSizeOk(bs) && n < Limit(bs / 4, 3)
    ensures forall t | 1 <= t < 4 :: 4 * IndexOf(bs / 4, n)[t] + 4 <= bs
  {
    IndexInRange(bs / 4, n);
  }

  lemma PathPlaces(links: nat, live: set<nat>, ino: nat, n: nat)
    requires LinksOk(links) && n < Limit(links, 3) && ino in live
    ensures forall t: nat | t <= ModeOf(links, n) ::
      && Place(links, live, Chain(ino, IndexOf(links, n), t)) && InoOf(Chain(ino, IndexOf(links, n), t)) == ino
      && (Leaf(Chain(ino, IndexOf(links, n), t)) <==> t == ModeOf(links, n))
  {
    forall t: nat | t <= ModeOf(links, n)
      ensures Place(links, live, Chain(ino, IndexOf(links, n), t)) && InoOf(Chain(ino, IndexOf(links, n), t)) == ino
      ensures Leaf(Chain(ino, IndexOf(links, n), t)) <==> t == ModeOf(links, n)
    {
      PathOk(links, ino, n, t);
    }
  }

  /** The path hangs together: each place but the topmost is an entry of the place before it. */
  lemma BuildShape(ino: nat, index: seq<nat>, j: nat, mode: nat, grown: map<Pos, nat>)
    requires |index| == 4 && j <= mode <= 3
    requires grown.Keys == ChainSet(ino, index, j, mode)
    ensures var q := Chain(ino, index, j);
      && q in grown
      && (forall p | p in grown && p != q :: p.Entry? && p.up in grown)
      && (if j == 0 then q == Slot(ino, index[0])
          else q == Entry(Chain(ino, index, j - 1), index[j]) && q.up !in grown)
  {
    var q := Chain(ino, index, j);
    forall p | p in grown && p != q
      ensures p.Entry? && p.up in grown
    {
      var t := Depth(p);
      assert t != j;
      assert p.up == Chain(ino, index, t - 1);
    }
    if j > 0 {
      ChainShape(ino, index, j - 1);
    }
  }

  lemma BuildTop(bs: nat, d: Disk, live: set<nat>, owner: map<nat, Pos>, ino: nat, index: seq<nat>, j: nat,
                 grown: map<Pos, nat>)
    requires |index| == 4 && 0 < j <= 3
    requires TreeInv(bs / 4, d, live, owner) && Place(bs / 4, live, Chain(ino, index, j - 1))
    requires At(d, Chain(ino, index, j - 1)) != 0
    ensures At(d, Chain(ino, index, j - 1)) in owner
    ensures owner[At(d, Chain(ino, index, j - 1))] == Chain(ino, index, j - 1)
  {
  }

  /** The new blocks hold the links of the path and no others. */
  lemma BuildLinks(bs: nat, d: Disk, blocks: seq<Block>, d': Disk, owner: map<nat, Pos>, ino: nat, index: seq<nat>,
                   j: nat, mode: nat, grown: map<Pos, nat>, top: nat)
    requires |index| == 4 && j <= mode <= 3
    requires Building(bs, d, blocks, owner, ino, index, j, mode, grown)
    requires |d'.blocks| == |blocks|
    requires forall b | 0 <= b < |blocks| && b != top :: d'.blocks[b] == blocks[b]
    requires top == 0 || top in owner
    requires forall t | 1 <= t < 4 :: 4 * index[t] + 4 <= bs
    ensures forall p, k: nat | p in grown ::
      LinkAt(d', grown[p], k) == if Entry(p, k) in grown then grown[Entry(p, k)] else 0
  {
    forall p, k: nat | p in grown
      ensures LinkAt(d', grown[p], k) == if Entry(p, k) in grown then grown[Entry(p, k)] else 0
    {
      var t := Depth(p);
      ChainShape(ino, index, t);
      assert d'.blocks[grown[p]] == blocks[grown[p]];
      if Entry(p, k) in grown {
        assert Depth(Entry(p, k)) == t + 1;
      }
      if t < mode {
        var e := Chain(ino, index, t + 1);
        assert e == Entry(p, index[t + 1]) && e in grown;
        assert d'.blocks[grown[p]] == IndexBlock(bs, index[t + 1], grown[e]);
        PutLinkLink(Zeros(bs), index[t + 1], grown[e], k);
        ZeroLinks(bs, k);
      } else {
        ZeroLinks(bs, k);
      }
    }
  }

  /** The old blocks keep their links, but for the one entry the path is hung on. */
  lemma OldLinks(bs: nat, d: Disk, blocks: seq<Block>, d': Disk, live: set<nat>, owner: map<nat, Pos>, ino: nat,
                 index: seq<nat>,
                 j: nat, mode: nat, grown: map<Pos, nat>)
    requires |index| == 4 && j <= mode <= 3
    requires Building(bs, d, blocks, owner, ino, index, j, mode, grown)
    requires Attached(bs, d, blocks, d', ino, index, j, grown[Chain(ino, index, j)])
    requires TreeInv(bs / 4, d, live, owner)
    requires j > 0 ==> (
      && InoOf(Chain(ino, index, j - 1)) == ino
      && At(d, Chain(ino, index, j - 1)) in owner
      && owner[At(d, Chain(ino, index, j - 1))] == Chain(ino, index, j - 1)
      && !Leaf(Chain(ino, index, j - 1)))
    ensures forall b, k: nat | b in owner ::
      LinkAt(d', b, k) == if j > 0 && b == At(d, Chain(ino, index, j - 1)) && k == index[j]
                          then grown[Chain(ino, index, j)]
                          else LinkAt(d, b, k)
    ensures forall b | b in owner && (Leaf(owner[b]) || InoOf(owner[b]) != ino) :: d'.blocks[b] == d.blocks[b]
    ensures forall p | p in grown && p == Chain(ino, index, mode) :: d'.blocks[grown[p]] == Zeros(bs)
  {
    assert forall b | b in grown.Values :: b !in owner;
    forall b, k: nat | b in owner
      ensures LinkAt(d', b, k) == if j > 0 && b == At(d, Chain(ino, index, j - 1)) && k == index[j]
                                  then grown[Chain(ino, index, j)]
                                  else LinkAt(d, b, k)
    {
      assert blocks[b] == d.blocks[b];
      if j > 0 && b == At(d, Chain(ino, index, j - 1)) {
        PutLinkLink(blocks[b], index[j], grown[Chain(ino, index, j)], k);
      }
    }
  }

  /** The new blocks were made for exactly the places of the path that had none. */
  lemma BuildPath(d: Disk, ino: nat, links: nat, n: nat, j: nat, grown: map<Pos, nat>)
    requires links > 0 && j <= ModeOf(links, n)
    requires grown.Keys == ChainSet(ino, IndexOf(links, n), j, ModeOf(links, n))
    requires forall p | p in grown :: At(d, p) == 0
    requires j > 0 ==> At(d, Chain(ino, IndexOf(links, n), j - 1)) != 0
    ensures grown.Keys == Missing(d, PathSet(links, ino, n))
  {
    hide IndexOf, ModeOf;
    var index := IndexOf(links, n);
    forall t: nat | t < j
      ensures At(d, Chain(ino, index, t)) != 0
    {
      if At(d, Chain(ino, index, t)) == 0 { ChainMissing(d, ino, index, t, j - 1); }
    }
    hide At, Chain;
    forall p | p in Missing(d, PathSet(links, ino, n))
      ensures p in grown
    {
      var t := Depth(p);
    }
    forall p | p in grown
      ensures p in Missing(d, PathSet(links, ino, n))
    {
      assert p == Chain(ino, index, Depth(p));
    }
  }

  lemma GoalInRange(geo: Geometry, g: nat)
    requires geo.Ok() && g < geo.Groups()
    ensures geo.firstDataBlock <= geo.GroupStart(g) && geo.GroupOf(geo.GroupStart(g)) == g
  {
    DivUnique(geo.GroupStart(g) - geo.firstDataBlock, geo.blocksPerGroup, g, 0);
  }

  lemma BlockNumberFits(v: Volume, b: nat)
    requires v.BlocksAccounted() && b < |v.blocks|
    ensures b < TWO32
  {
    MulMono(v.geo.BlockBound(), v.geo.BlockBound() * v.geo.blockSize, 1);
  }

  lemma SubsetSize<T>(a: set<T>, b: set<T>)
    requires a <= b
    ensures |a| <= |b|
  {
    assert b == a + (b - a);
  }

  /** The loop invariant: the blocks made so far, the one to be hung next, the data block, and the bitmap. */
  ghost predicate PathBuilt(bs: nat, d: Disk, blocks: seq<Block>, owner: map<nat, Pos>, used: set<nat>, ino: nat,
                            index: seq<nat>,
                            j: nat, mode: nat, grown: map<Pos, nat>, newBlk: nat, firstNew: nat, count: nat)
    requires |index| == 4 && j <= mode <= 3
  {
    && Building(bs, d, blocks, owner, ino, index, j, mode, grown)
    && newBlk == grown[Chain(ino, index, j)]
    && firstNew == grown[Chain(ino, index, mode)]
    && used == owner.Keys + grown.Values
    && |grown| == count
  }

  lemma BuildStart(bs: nat, d: Disk, blocks: seq<Block>, owner: map<nat, Pos>, used: set<nat>, ino: nat,
                   index: seq<nat>, mode: nat, b: nat)
    requires |index| == 4 && mode <= 3
    requires 0 < b < |d.blocks| && b < TWO32 && b !in owner.Keys && used == owner.Keys + {b}
    requires blocks == d.blocks[b := Zeros(bs)] && At(d, Chain(ino, index, mode)) == 0
    ensures PathBuilt(bs, d, blocks, owner, used, ino, index, mode, mode, map[Chain(ino, index, mode) := b], b, b, 1)
  {
    hide *;
    var c := Chain(ino, index, mode);
    OneChain(ino, index, mode);
    OneValue(c, b);
    StartGrown(d, blocks, owner, c, b, Zeros(bs));
    StartChain(bs, blocks, ino, index, mode, map[c := b]);
    BuildingIs(bs, d, blocks, owner, ino, index, mode, mode, map[c := b]);
    PathBuiltIs(bs, d, blocks, owner, used, ino, index, mode, mode, map[c := b], b, b, 1);
  }

  lemma StartGrown(d: Disk, blocks: seq<Block>, owner: map<nat, Pos>, c: Pos, b: nat, x: Block)
    requires 0 < b < |d.blocks| && b < TWO32 && b !in owner && blocks == d.blocks[b := x] && At(d, c) == 0
    ensures GrownFresh(d, owner, map[c := b], |blocks|) && Unbuilt(d, blocks, map[c := b])
  {
    hide At;
    OneValue(c, b);
  }

  lemma StartChain(bs: nat, blocks: seq<Block>, ino: nat, index: seq<nat>, mode: nat, grown: map<Pos, nat>)
    requires |index| == 4 && mode <= 3 && Chain(ino, index, mode) in grown
    requires grown[Chain(ino, index, mode)] < |blocks| && blocks[grown[Chain(ino, index, mode)]] == Zeros(bs)
    ensures ChainLinks(bs, blocks, ino, index, mode, mode, grown)
  {
    hide Chain, Zeros;
  }

  lemma PathBuiltIs(bs: nat, d: Disk, blocks: seq<Block>, owner: map<nat, Pos>, used: set<nat>, ino: nat,
                    index: seq<nat>, j: nat, mode: nat, grown: map<Pos, nat>, newBlk: nat, firstNew: nat, count: nat)
    requires |index| == 4 && j <= mode <= 3 && Chain(ino, index, j) in grown && Chain(ino, index, mode) in grown
    requires Building(bs, d, blocks, owner, ino, index, j, mode, grown)
    requires newBlk == grown[Chain(ino, index, j)] && firstNew == grown[Chain(ino, index, mode)]
    requires used == owner.Keys + grown.Values && |grown| == count
    ensures PathBuilt(bs, d, blocks, owner, used, ino, index, j, mode, grown, newBlk, firstNew, count)
  {
    hide Building, Chain;
  }

  lemma OneValue(c: Pos, b: nat)
    ensures map[c := b].Values == {b} && |map[c := b]| == 1
  {
    assert map[c := b][c] == b;
  }

  lemma OneChain(ino: nat, index: seq<nat>, mode: nat)
    requires mode < |index|
    ensures ChainSet(ino, index, mode, mode) == {Chain(ino, index, mode)}
  {
    ChainShape(ino, index, mode);
  }

  lemma RoomForOneMore(bs: nat, d: Disk, blocks: seq<Block>, owner: map<nat, Pos>, used: set<nat>, ino: nat,
                       index: seq<nat>,
                       j: nat, mode: nat, grown: map<Pos, nat>, newBlk: nat, firstNew: nat, count: nat)
    requires |index| == 4 && 0 < j <= mode <= 3
    requires PathBuilt(bs, d, blocks, owner, used, ino, index, j, mode, grown, newBlk, firstNew, count)
    requires At(d, Chain(ino, index, j - 1)) == 0
    ensures count + 1 <= |Missing(d, ChainSet(ino, index, 0, mode))|
  {
    hide At, Chain, Missing, ChainSet, IndexBlock;
    MissingStep(d, ino, index, j, mode, grown);
  }

  lemma MissingStep(d: Disk, ino: nat, index: seq<nat>, j: nat, mode: nat, grown: map<Pos, nat>)
    requires 0 < j <= mode < |index|
    requires grown.Keys == ChainSet(ino, index, j, mode)
    requires forall p | p in grown :: At(d, p) == 0
    requires At(d, Chain(ino, index, j - 1)) == 0
    ensures |grown| + 1 <= |Missing(d, ChainSet(ino, index, 0, mode))|
  {
    hide At;
    var c := Chain(ino, index, j - 1);
    ChainShape(ino, index, j - 1);
    assert c !in grown.Keys;
    forall p | p in grown.Keys + {c} ensures p in Missing(d, ChainSet(ino, index, 0, mode)) {
      assert p == Chain(ino, index, Depth(p));
    }
    SubsetSize(grown.Keys + {c}, Missing(d, ChainSet(ino, index, 0, mode)));
    assert |grown.Keys| == |grown|;
  }

  lemma ValuesStep(m: map<Pos, nat>, p: Pos, b: nat)
    requires p !in m
    ensures m[p := b].Values == m.Values + {b} && |m[p := b]| == |m| + 1
  {
    var m' := m[p := b];
    assert m'[p] == b;
    forall x | x in m.Values ensures x in m'.Values {
      var q :| q in m && m[q] == x;
      assert m'[q] == x;
    }
  }

  /** The current offset of the handle lies in a hole. */
  ghost predicate AtHole(v: Volume, h: FileHandle)
    requires v.geo.Ok()
    reads v`blocks, v`inodes, h`ino, h`it
  {
    BlockOf(v.geo.blockSize, v.D(), h.ino, h.it.offset / v.geo.blockSize) == 0
  }

  /** The places without a block on the path to the current offset. */
  ghost function MissingHere(v: Volume, h: FileHandle): set<Pos>
    requires v.geo.Ok()
    reads v`blocks, v`inodes, h`ino, h`it
  {
    Missing(v.D(), PathSet(v.LinksPerBlock(), h.ino, h.it.offset / v.geo.blockSize))
  }

  /** The place of the block at the current offset. */
  ghost function PlaceHere(h: FileHandle): Pos
    requires h.it.mode < |h.it.index|
    reads h`ino, h`it
  {
    Chain(h.ino, h.it.index, h.it.mode)
  }

  // ---- which blocks are taken ----

  /** b is the first free block from group g on. */
  ghost predicate BlockChosen(geo: Geometry, marked: set<nat>, g: nat, b: nat) {
    && geo.Ok() && geo.DataBlock(b)
    && FirstFree(BlockSpace(geo), marked, g, geo.GroupOf(b), geo.BitOf(b))
  }

  ghost function Members(blocks: seq<nat>): set<nat> {
    set b | b in blocks
  }

  /** Each block is the first free one from group g on when those before it have been taken. */
  ghost predicate Picks(geo: Geometry, marked: set<nat>, g: nat, blocks: seq<nat>) {
    forall i | 0 <= i < |blocks| :: BlockChosen(geo, marked + Members(blocks[..i]), g, blocks[i])
  }

  lemma PicksNone(geo: Geometry, marked: set<nat>, g: nat)
    ensures Picks(geo, marked, g, []) && marked + Members([]) == marked
  {
  }

  lemma PicksJoin(geo: Geometry, marked: set<nat>, g: nat, a: seq<nat>, b: seq<nat>)
    requires Picks(geo, marked, g, a) && Picks(geo, marked + Members(a), g, b)
    ensures Picks(geo, marked, g, a + b) && marked + Members(a + b) == marked + Members(a) + Members(b)
  {
    hide BlockChosen;
    forall i | 0 <= i < |a + b|
      ensures BlockChosen(geo, marked + Members((a + b)[..i]), g, (a + b)[i])
    {
      if i < |a| {
        assert (a + b)[..i] == a[..i];
      } else {
        assert (a + b)[..i] == a + b[..i - |a|];
        assert marked + Members(a + b[..i - |a|]) == marked + Members(a) + Members(b[..i - |a|]);
        assert BlockChosen(geo, marked + Members(a) + Members(b[..i - |a|]), g, b[i - |a|]);
      }
    }
  }

  lemma PicksMore(geo: Geometry, marked: set<nat>, g: nat, blocks: seq<nat>, b: nat)
    requires Picks(geo, marked, g, blocks) && BlockChosen(geo, marked + Members(blocks), g, b)
    ensures Picks(geo, marked, g, blocks + [b])
    ensures marked + Members(blocks + [b]) == marked + Members(blocks) + {b}
  {
    hide BlockChosen;
    assert Members([b]) == {b};
    assert marked + Members(blocks) + Members([]) == marked + Members(blocks);
    assert [b][..0] == [];
    PicksJoin(geo, marked, g, blocks, [b]);
  }

  /** The new blocks of a path in the order in which they are taken: the data block first, then upwards. */
  ghost function PathBlocks(grown: map<Pos, nat>, ino: nat, index: seq<nat>, mode: nat): (r: seq<nat>)
    requires mode < |index|
    ensures |r| == |grown|
  {
    seq(|grown|, i requires 0 <= i < |grown| =>
      if i <= mode && Chain(ino, index, mode - i) in grown then grown[Chain(ino, index, mode - i)] else 0)
  }

  lemma PathBlocksOne(ino: nat, index: seq<nat>, mode: nat, b: nat)
    requires mode < |index|
    ensures PathBlocks(map[Chain(ino, index, mode) := b], ino, index, mode) == [b]
  {
    hide Chain;
    OneValue(Chain(ino, index, mode), b);
  }

  lemma PathBlocksMore(grown: map<Pos, nat>, ino: nat, index: seq<nat>, j: nat, mode: nat, b: nat)
    requires 0 < j <= mode < |index| && |grown| == mode + 1 - j && Chain(ino, index, j - 1) !in grown
    ensures PathBlocks(grown[Chain(ino, index, j - 1) := b], ino, index, mode)
      == PathBlocks(grown, ino, index, mode) + [b]
  {
    forall t: nat | j <= t <= mode
      ensures Chain(ino, index, t) != Chain(ino, index, j - 1)
    {
      ChainsApart(ino, index, j - 1, t);
    }
    hide Chain;
    var grown' := grown[Chain(ino, index, j - 1) := b];
    ValuesStep(grown, Chain(ino, index, j - 1), b);
    assert mode - |grown| == j - 1;
  }

  /** allocate_block as it is called here: where no block is free the caller's variable keeps its number. */
  method AllocateInto(v: Volume, goal: nat, kept: nat) returns (ok: bool, b: nat)
    requires v.BlocksAccounted()
    requires v.geo.firstDataBlock <= goal && v.geo.GroupOf(goal) < v.geo.Groups()
    modifies v`blocks, v`groups, v`blockBits, v`used
    ensures v.BlocksAccounted() && InodeCounts(v.groups) == old(InodeCounts(v.groups))
    ensures ok <==> old(Sum(BlockCounts(v.groups))) > 0
    ensures !ok ==> unchanged(v) && b == kept
    ensures ok ==>
      && |v.blocks| == |old(v.blocks)| && 0 < b < |v.blocks| && b < TWO32 && b !in old(v.used)
      && v.used == old(v.used) + {b} && v.blocks == old(v.blocks)[b := Zeros(v.geo.blockSize)]
      && Sum(BlockCounts(v.groups)) + 1 == old(Sum(BlockCounts(v.groups)))
      && BlockChosen(v.geo, old(v.Marked()), v.geo.GroupOf(goal), b) && v.Marked() == old(v.Marked()) + {b}
  {
    hide FirstFree, SetBit, BitAdded, Geometry.GroupOf, Geometry.Groups, Geometry.BitOf, Geometry.DataBlock, Accounted,
      SpaceOk, BlockSpace, AnyFree;
    BlockSpaceOk(v.geo);
    CountersTell(BlockSpace(v.geo), v.geo.blockSize, v.blockBits, BlockCounts(v.groups), v.Marked(), v.blockPadding);
    ok, b := v.AllocateBlock(goal);
    if ok {
      BlockNumberFits(v, b);
    } else {
      b := kept;
    }
  }

  lemma CursorFacts(v: Volume, h: FileHandle)
    requires v.Sound() && Open(v, h)
    ensures BlockSizeOk(v.geo.blockSize)
    ensures h.it.mode <= 3 && |h.it.index| == 4 && h.it.index[0] < SLOTS
    ensures forall t | 1 <= t < 4 :: 4 * h.it.index[t] + 4 <= v.geo.blockSize
    ensures |h.it.blks| == |h.it.valid| == |h.it.blksBlk| == 4
    ensures forall t | 1 <= t <= h.it.mode :: LevelOk(v.D(), h.ino, h.it, t)
    ensures |h.inode.block| == SLOTS
    ensures TreeInv(v.LinksPerBlock(), v.D(), v.live, v.owner)
    ensures v.BlocksAccounted() && v.used == v.owner.Keys && v.freeBlocks == Sum(BlockCounts(v.groups))
    ensures AtHole(v, h) <==> At(v.D(), PlaceHere(h)) == 0
    ensures MissingHere(v, h) == Missing(v.D(), ChainSet(h.ino, h.it.index, 0, h.it.mode))
  {
    OffsetsReachable(v.geo.blockSize, h.it.offset);
    IndexInRange(v.LinksPerBlock(), h.it.offset / v.geo.blockSize);
  }

  lemma HoleFacts(v: Volume, h: FileHandle)
    requires v.Sound() && Open(v, h)
    ensures BlockSizeOk(v.geo.blockSize) && |h.inode.block| == SLOTS
    ensures TreeInv(v.LinksPerBlock(), v.D(), v.live, v.owner) && v.used == v.owner.Keys
  {
    hide *;
    CursorFacts(v, h);
  }

  lemma PlaceHereIs(h: FileHandle)
    requires h.it.mode < |h.it.index|
    ensures PlaceHere(h) == Chain(h.ino, h.it.index, h.it.mode)
  {
  }

  lemma LevelFacts(d: Disk, ino: nat, it: Cursor, t: nat)
    requires |it.index| == |it.blks| == |it.valid| == |it.blksBlk| == 4 && 1 <= t <= 3 && LevelOk(d, ino, it, t)
    ensures it.blksBlk[t] == At(d, Chain(ino, it.index, t - 1))
    ensures it.blksBlk[t] != 0 ==> it.blksBlk[t] < |d.blocks|
  {
  }

  lemma IndexBlockSize(bs: nat, k: nat, w: nat)
    ensures |IndexBlock(bs, k, w)| == bs
  {
  }

  /** What a round of the loop leaves when no block was free for it: the index block has been written over the block
      made before, whose number the variable kept, so that this block links to itself. */
  ghost predicate Looped(bs: nat, d: Disk, blocks: seq<Block>, owner: map<nat, Pos>, index: seq<nat>, j: nat,
                         newBlk: nat)
    requires |index| == 4 && j < 3
  {
    && |blocks| == |d.blocks| && 0 < newBlk < |blocks| && newBlk < TWO32 && newBlk !in owner
    && blocks[newBlk] == IndexBlock(bs, index[j + 1], newBlk)
    && forall b | b in owner && b < |blocks| :: blocks[b] == d.blocks[b]
  }

  lemma LoopStart(bs: nat, d: Disk, blocks: seq<Block>, blocks': seq<Block>, owner: map<nat, Pos>, used: set<nat>,
                  ino: nat, index: seq<nat>, j: nat, mode: nat, grown: map<Pos, nat>, newBlk: nat, firstNew: nat,
                  count: nat)
    requires |index| == 4 && 0 < j <= mode <= 3
    requires PathBuilt(bs, d, blocks, owner, used, ino, index, j, mode, grown, newBlk, firstNew, count)
    requires newBlk < |blocks| && blocks' == blocks[newBlk := IndexBlock(bs, index[j], newBlk)]
    ensures Looped(bs, d, blocks', owner, index, j - 1, newBlk)
  {
    hide IndexBlock, At, ChainSet;
    assert Chain(ino, index, j) in grown;
    assert forall b | b in grown.Values :: b !in owner;
  }

  lemma LoopStep(bs: nat, d: Disk, blocks: seq<Block>, blocks': seq<Block>, owner: map<nat, Pos>, index: seq<nat>,
                 j: nat, newBlk: nat)
    requires |index| == 4 && 0 < j < 3 && Looped(bs, d, blocks, owner, index, j, newBlk)
    requires newBlk < |blocks| && blocks' == blocks[newBlk := IndexBlock(bs, index[j], newBlk)]
    ensures Looped(bs, d, blocks', owner, index, j - 1, newBlk)
  {
    hide IndexBlock;
  }

  /** The state of the loop: the path built so far, or the loop that a round without a free block has left. */
  ghost predicate PathState(bs: nat, d: Disk, blocks: seq<Block>, owner: map<nat, Pos>, used: set<nat>, ino: nat,
                            index: seq<nat>, j: nat, mode: nat, grown: map<Pos, nat>, newBlk: nat, firstNew: nat,
                            count: nat, short: bool)
    requires |index| == 4 && j <= mode <= 3
  {
    if short then j < mode && Looped(bs, d, blocks, owner, index, j, newBlk)
    else PathBuilt(bs, d, blocks, owner, used, ino, index, j, mode, grown, newBlk, firstNew, count)
  }

  lemma PathStateBlock(bs: nat, d: Disk, blocks: seq<Block>, owner: map<nat, Pos>, used: set<nat>, ino: nat,
                       index: seq<nat>, j: nat, mode: nat, grown: map<Pos, nat>, newBlk: nat, firstNew: nat,
                       count: nat, short: bool)
    requires |index| == 4 && j <= mode <= 3
    requires PathState(bs, d, blocks, owner, used, ino, index, j, mode, grown, newBlk, firstNew, count, short)
    ensures newBlk < |blocks| == |d.blocks| && newBlk < TWO32
  {
    hide IndexBlock, At, ChainSet;
    assert !short ==> Chain(ino, index, j) in grown;
  }

  lemma NextState(bs: nat, d: Disk, blocks: seq<Block>, blocks': seq<Block>, owner: map<nat, Pos>, used: set<nat>,
                  used': set<nat>, ino: nat, index: seq<nat>, j: nat, mode: nat, grown: map<Pos, nat>, newBlk: nat,
                  firstNew: nat, count: nat, short: bool, b: nat)
    requires |index| == 4 && 0 < j <= mode <= 3
    requires PathState(bs, d, blocks, owner, used, ino, index, j, mode, grown, newBlk, firstNew, count, short)
    requires At(d, Chain(ino, index, j - 1)) == 0
    requires b < |blocks| && blocks' == blocks[b := IndexBlock(bs, index[j], newBlk)]
    ensures 0 < b < TWO32 && b !in used && used' == used + {b} && !short ==>
      PathState(bs, d, blocks', owner, used', ino, index, j - 1, mode, grown[Chain(ino, index, j - 1) := b], b,
                firstNew, count + 1, false)
    ensures b == newBlk ==>
      PathState(bs, d, blocks', owner, used', ino, index, j - 1, mode, grown, b, firstNew, count + 1, true)
  {
    hide *;
    hide At;
    PathStateIs(bs, d, blocks, owner, used, ino, index, j, mode, grown, newBlk, firstNew, count, short);
    if 0 < b < TWO32 && b !in used && used' == used + {b} && !short {
      LevelAdded(bs, d, blocks, blocks', owner, used, used', ino, index, j, mode, grown, newBlk, firstNew, count, b);
      PathStateIs(bs, d, blocks', owner, used', ino, index, j - 1, mode, grown[Chain(ino, index, j - 1) := b], b,
                  firstNew, count + 1, false);
    }
    if b == newBlk {
      if short {
        LoopStep(bs, d, blocks, blocks', owner, index, j, newBlk);
      } else {
        LoopStart(bs, d, blocks, blocks', owner, used, ino, index, j, mode, grown, newBlk, firstNew, count);
      }
      PathStateIs(bs, d, blocks', owner, used', ino, index, j - 1, mode, grown, b, firstNew, count + 1, true);
    }
  }

  lemma PathStateIs(bs: nat, d: Disk, blocks: seq<Block>, owner: map<nat, Pos>, used: set<nat>, ino: nat,
                    index: seq<nat>, j: nat, mode: nat, grown: map<Pos, nat>, newBlk: nat, firstNew: nat,
                    count: nat, short: bool)
    requires |index| == 4 && j <= mode <= 3
    ensures PathState(bs, d, blocks, owner, used, ino, index, j, mode, grown, newBlk, firstNew, count, short) <==>
      if short then j < mode && Looped(bs, d, blocks, owner, index, j, newBlk)
      else PathBuilt(bs, d, blocks, owner, used, ino, index, j, mode, grown, newBlk, firstNew, count)
  {
  }

  lemma LevelPicked(geo: Geometry, d: Disk, blocks: seq<Block>, owner: map<nat, Pos>, used: set<nat>, ino: nat,
                    index: seq<nat>, j: nat, mode: nat, grown: map<Pos, nat>, newBlk: nat, firstNew: nat, count: nat,
                    marked: set<nat>, marked1: set<nat>, marked2: set<nat>, g: nat, b: nat)
    requires |index| == 4 && 0 < j <= mode <= 3 && count == mode + 1 - j
    requires PathState(geo.blockSize, d, blocks, owner, used, ino, index, j, mode, grown, newBlk, firstNew, count,
                       false)
    requires Picking(geo, marked, marked1, g, PathBlocks(grown, ino, index, mode))
    requires BlockChosen(geo, marked1, g, b) && marked2 == marked1 + {b}
    ensures Picking(geo, marked, marked2, g, PathBlocks(grown[Chain(ino, index, j - 1) := b], ino, index, mode))
  {
    hide *;
    PathStateIs(geo.blockSize, d, blocks, owner, used, ino, index, j, mode, grown, newBlk, firstNew, count, false);
    PathBuiltLength(geo.blockSize, d, blocks, owner, used, ino, index, j, mode, grown, newBlk, firstNew, count);
    PathBlocksMore(grown, ino, index, j, mode, b);
    PickingMore(geo, marked, marked1, marked2, g, PathBlocks(grown, ino, index, mode), b);
  }

  /** One round of the loop: an index block for level j of the path, holding the link to the block made before. */
  method AddLevel(v: Volume, goal: nat, ghost d: Disk, ghost ino: nat, index: seq<nat>, j: nat, ghost mode: nat,
                  ghost grown: map<Pos, nat>, newBlk: nat, ghost firstNew: nat, ghost count: nat, ghost short: bool,
                  ghost marked: set<nat>)
    returns (b: nat, ghost grown': map<Pos, nat>, ghost short': bool)
    requires v.BlocksAccounted()
    requires v.geo.firstDataBlock <= goal && v.geo.GroupOf(goal) < v.geo.Groups()
    requires |index| == 4 && 0 < j <= mode <= 3
    requires PathState(v.geo.blockSize, d, v.blocks, v.owner, v.used, ino, index, j, mode, grown, newBlk, firstNew,
                       count, short)
    requires At(d, Chain(ino, index, j - 1)) == 0 && (short ==> Sum(BlockCounts(v.groups)) == 0)
    requires !short ==>
      && count == mode + 1 - j
      && Picking(v.geo, marked, v.Marked(), v.geo.GroupOf(goal), PathBlocks(grown, ino, index, mode))
    modifies v`blocks, v`groups, v`blockBits, v`used
    ensures v.BlocksAccounted() && InodeCounts(v.groups) == old(InodeCounts(v.groups))
    ensures short' <==> old(Sum(BlockCounts(v.groups))) == 0
    ensures PathState(v.geo.blockSize, d, v.blocks, v.owner, v.used, ino, index, j - 1, mode, grown', b, firstNew,
                      count + 1, short')
    ensures Sum(BlockCounts(v.groups)) == if short' then 0 else old(Sum(BlockCounts(v.groups))) - 1
    ensures !short' ==>
      Picking(v.geo, marked, v.Marked(), v.geo.GroupOf(goal), PathBlocks(grown', ino, index, mode))
  {
    hide *;
    assert v.geo.Ok() by { AccountedFacts(v); }
    OkBasics(v.geo);
    ghost var g := v.geo.GroupOf(goal);
    var scratch := IndexBlock(v.geo.blockSize, index[j], newBlk);
    IndexBlockSize(v.geo.blockSize, index[j], newBlk);
    PathStateBlock(v.geo.blockSize, d, v.blocks, v.owner, v.used, ino, index, j, mode, grown, newBlk, firstNew, count,
                   short);
    var ok;
    ok, b := AllocateInto(v, goal, newBlk);
    v.WriteBlock(b, scratch);
    assert v.blocks == old(v.blocks)[b := scratch];
    NextState(v.geo.blockSize, d, old(v.blocks), v.blocks, v.owner, old(v.used), v.used, ino, index, j, mode, grown,
              newBlk, firstNew, count, short, b);
    short' := !ok;
    grown' := if ok then grown[Chain(ino, index, j - 1) := b] else grown;
    if ok {
      LevelPicked(v.geo, d, old(v.blocks), v.owner, old(v.used), ino, index, j, mode, grown, newBlk, firstNew, count,
                  marked, old(v.Marked()), v.Marked(), g, b);
    }
  }

  lemma LevelAdded(bs: nat, d: Disk, blocks: seq<Block>, blocks': seq<Block>, owner: map<nat, Pos>, used: set<nat>,
                   used': set<nat>,
                   ino: nat, index: seq<nat>, j: nat, mode: nat, grown: map<Pos, nat>, newBlk: nat, firstNew: nat,
                     count: nat, b: nat)
    requires |index| == 4 && 0 < j <= mode <= 3
    requires PathBuilt(bs, d, blocks, owner, used, ino, index, j, mode, grown, newBlk, firstNew, count)
    requires 0 < b < |blocks| && b < TWO32 && b !in used && used' == used + {b}
    requires At(d, Chain(ino, index, j - 1)) == 0
    requires blocks' == blocks[b := IndexBlock(bs, index[j], newBlk)]
    ensures PathBuilt(bs, d, blocks', owner, used', ino, index, j - 1, mode, grown[Chain(ino, index, j - 1) := b], b,
                      firstNew, count + 1)
  {
    hide IndexBlock, Building, At, Chain, ChainSet;
    var c := Chain(ino, index, j - 1);
    BuildingKeys(bs, d, blocks, owner, ino, index, j, mode, grown);
    assert b !in owner.Keys && b !in grown.Values;
    BuildStep(bs, d, blocks, blocks', owner, ino, index, j, mode, grown, b);
    LevelMaps(owner, used, used', grown, c, b);
  }

  lemma LevelMaps(owner: map<nat, Pos>, used: set<nat>, used': set<nat>, grown: map<Pos, nat>, c: Pos, b: nat)
    requires c !in grown && used == owner.Keys + grown.Values && used' == used + {b}
    ensures used' == owner.Keys + grown[c := b].Values && |grown[c := b]| == |grown| + 1
  {
    ValuesStep(grown, c, b);
  }

  lemma BuildingKeys(bs: nat, d: Disk, blocks: seq<Block>, owner: map<nat, Pos>, ino: nat, index: seq<nat>,
                     j: nat, mode: nat, grown: map<Pos, nat>)
    requires |index| == 4 && j <= mode <= 3 && Building(bs, d, blocks, owner, ino, index, j, mode, grown)
    ensures |blocks| == |d.blocks|
    ensures Chain(ino, index, j) in grown && Chain(ino, index, mode) in grown
  {
  }

  /** Hangs the finished path on the lowest existing index block, or on the inode if there is none. */
  method Attach(v: Volume, h: FileHandle, ghost d: Disk, j: nat, newBlk: nat)
    requires v.BlocksAccounted() && |h.it.index| == |h.it.blksBlk| == 4 && j <= 3 && newBlk < TWO32
    requires h.ino < |v.inodes| && |h.inode.block| == SLOTS && h.it.index[0] < SLOTS
    requires d.inodes == v.inodes && h.inode == v.inodes[h.ino] && |d.blocks| == |v.blocks|
    requires j > 0 ==> 4 * h.it.index[j] + 4 <= v.geo.blockSize
    requires j > 0 ==> 0 < h.it.blksBlk[j] == At(d, Chain(h.ino, h.it.index, j - 1)) < |v.blocks|
    modifies v`blocks, h`inode
    ensures v.BlocksAccounted()
    ensures h.inode == old(h.inode).(block := h.inode.block) && |h.inode.block| == SLOTS
    ensures Attached(v.geo.blockSize, d, old(v.blocks), DiskOf(v, h), h.ino, h.it.index, j, newBlk)
    ensures j == 0 ==> v.blocks == old(v.blocks)
  {
    hide Accounted, Geometry.Ok, BlockSpace;
    if j > 0 {
      var b := h.it.blksBlk[j];
      v.WriteBlock(b, PutLink(v.blocks[b], h.it.index[j], newBlk));
    } else {
      h.inode := h.inode.(block := h.inode.block[h.it.index[0] := newBlk]);
    }
  }

  /** The bottom-up half of allocate_new_data_block: the new data block and an index block for each missing level.
      `short` says that the free blocks gave out on the way. */
  method MakePath(v: Volume, h: FileHandle)
    returns (firstNew: nat, newBlk: nat, j: nat, count: nat, ghost grown: map<Pos, nat>, ghost short: bool)
    requires v.Sound() && Open(v, h) && AtHole(v, h) && v.freeBlocks > 0
    modifies v`blocks, v`groups, v`blockBits, v`used
    ensures v.BlocksAccounted() && InodeCounts(v.groups) == old(InodeCounts(v.groups))
    ensures |h.it.index| == |h.it.blksBlk| == 4 && j <= h.it.mode <= 3
    ensures PathState(v.geo.blockSize, old(v.D()), v.blocks, v.owner, v.used, h.ino, h.it.index, j, h.it.mode, grown,
                      newBlk, firstNew, count, short)
    ensures j > 0 ==> h.it.blksBlk[j] != 0
    ensures if short then Sum(BlockCounts(v.groups)) == 0 && |old(MissingHere(v, h))| > old(v.freeBlocks)
      else Sum(BlockCounts(v.groups)) + count == old(Sum(BlockCounts(v.groups)))
    ensures !short ==> Picking(v.geo, old(v.Marked()), v.Marked(), v.geo.InodeGroup(h.ino),
                               PathBlocks(grown, h.ino, h.it.index, h.it.mode))
  {
    hide *;
    ghost var bs, ino := v.geo.blockSize, h.ino;
    ghost var d := v.D();
    CursorFacts(v, h);
    OpenFacts(v, h);
    var index, mode := h.it.index, h.it.mode;
    var goal := v.geo.GroupStart(h.pbgdIndex);
    GoalInRange(v.geo, h.pbgdIndex);
    PlaceHereIs(h);
    var ok;
    ok, newBlk := AllocateInto(v, goal, 0);
    firstNew := newBlk;
    j := mode;
    count := 1;
    BuildStart(bs, d, v.blocks, v.owner, v.used, ino, index, mode, newBlk);
    grown, short := map[Chain(ino, index, mode) := newBlk], false;
    PathStateIs(bs, d, v.blocks, v.owner, v.used, ino, index, j, mode, grown, newBlk, firstNew, count, short);
    ghost var marked, g := old(v.Marked()), v.geo.GroupOf(goal);
    PickingStart(v.geo, marked, v.Marked(), g, newBlk);
    PathBlocksOne(ino, index, mode, newBlk);
    while j > 0 && h.it.blksBlk[j] == 0
      invariant 0 <= j <= mode && count == mode + 1 - j
      invariant !short ==> Picking(v.geo, marked, v.Marked(), g, PathBlocks(grown, ino, index, mode))
      invariant v.BlocksAccounted() && InodeCounts(v.groups) == old(InodeCounts(v.groups))
      invariant PathState(bs, d, v.blocks, v.owner, v.used, ino, index, j, mode, grown, newBlk, firstNew, count, short)
      invariant if short then Sum(BlockCounts(v.groups)) == 0 && |old(MissingHere(v, h))| > old(v.freeBlocks)
        else Sum(BlockCounts(v.groups)) + count == old(Sum(BlockCounts(v.groups)))
      decreases j
    {
      LevelFacts(d, ino, h.it, j);
      if !short {
        PathStateIs(bs, d, v.blocks, v.owner, v.used, ino, index, j, mode, grown, newBlk, firstNew, count, short);
        RoomForOneMore(bs, d, v.blocks, v.owner, v.used, ino, index, j, mode, grown, newBlk, firstNew, count);
      }
      newBlk, grown, short := AddLevel(v, goal, d, ino, index, j, mode, grown, newBlk, firstNew, count, short, marked);
      count := count + 1;
      j := j - 1;
    }
  }

  /** The blocks taken so far, and what is marked with them. */
  ghost predicate Picking(geo: Geometry, marked: set<nat>, marked': set<nat>, g: nat, blocks: seq<nat>) {
    Picks(geo, marked, g, blocks) && marked' == marked + Members(blocks)
  }

  lemma PickingStart(geo: Geometry, marked: set<nat>, marked': set<nat>, g: nat, b: nat)
    requires BlockChosen(geo, marked, g, b) && marked' == marked + {b}
    ensures Picking(geo, marked, marked', g, [b])
  {
    hide BlockChosen;
    PicksNone(geo, marked, g);
    PicksMore(geo, marked, g, [], b);
    assert [] + [b] == [b];
  }

  lemma PickingMore(geo: Geometry, marked: set<nat>, marked1: set<nat>, marked2: set<nat>, g: nat, blocks: seq<nat>,
                    b: nat)
    requires Picking(geo, marked, marked1, g, blocks) && BlockChosen(geo, marked1, g, b) && marked2 == marked1 + {b}
    ensures Picking(geo, marked, marked2, g, blocks + [b])
  {
    hide Picks, BlockChosen, Members;
    PicksMore(geo, marked, g, blocks, b);
  }

  lemma PickingIs(geo: Geometry, marked: set<nat>, marked': set<nat>, g: nat, blocks: seq<nat>)
    ensures Picking(geo, marked, marked', g, blocks) <==>
      Picks(geo, marked, g, blocks) && marked' == marked + Members(blocks)
  {
  }

  lemma PathBuiltLength(bs: nat, d: Disk, blocks: seq<Block>, owner: map<nat, Pos>, used: set<nat>, ino: nat,
                        index: seq<nat>, j: nat, mode: nat, grown: map<Pos, nat>, newBlk: nat, firstNew: nat,
                        count: nat)
    requires |index| == 4 && 0 < j <= mode <= 3
    requires PathBuilt(bs, d, blocks, owner, used, ino, index, j, mode, grown, newBlk, firstNew, count)
    ensures |grown| == count && Chain(ino, index, j - 1) !in grown
  {
    hide At, IndexBlock;
    ChainShape(ino, index, j - 1);
  }

  lemma PathBuiltFacts(bs: nat, d: Disk, blocks: seq<Block>, owner: map<nat, Pos>, used: set<nat>, ino: nat,
                       index: seq<nat>,
                       j: nat, mode: nat, grown: map<Pos, nat>, newBlk: nat, firstNew: nat, count: nat)
    requires |index| == 4 && j <= mode <= 3
    requires PathBuilt(bs, d, blocks, owner, used, ino, index, j, mode, grown, newBlk, firstNew, count)
    ensures Building(bs, d, blocks, owner, ino, index, j, mode, grown)
    ensures Chain(ino, index, j) in grown && newBlk == grown[Chain(ino, index, j)] < TWO32
    ensures Chain(ino, index, mode) in grown && firstNew == grown[Chain(ino, index, mode)]
    ensures |blocks| == |d.blocks| && used == owner.Keys + grown.Values && |grown| == count
  {
  }

  lemma PathDone(v: Volume, h: FileHandle, d: Disk, built: seq<Block>, j: nat, grown: map<Pos, nat>)
    requires v.geo.Ok() && CursorOk(v.geo.blockSize, d, h.ino, h.it) && h.ino in v.live
    requires TreeInv(v.LinksPerBlock(), d, v.live, v.owner)
    requires |h.it.index| == 4 && j <= h.it.mode <= 3
    requires Building(v.geo.blockSize, d, built, v.owner, h.ino, h.it.index, j, h.it.mode, grown)
    requires Chain(h.ino, h.it.index, j) in grown && Chain(h.ino, h.it.index, h.it.mode) in grown
    requires Attached(v.geo.blockSize, d, built, DiskOf(v, h), h.ino, h.it.index, j, grown[Chain(h.ino, h.it.index, j)])
    ensures grown.Keys == Missing(d, ChainSet(h.ino, h.it.index, 0, h.it.mode))
    ensures PathGrafted(v.geo.blockSize, d, DiskOf(v, h), v.live, v.owner, h.ino, h.it, grown,
                        grown[Chain(h.ino, h.it.index, h.it.mode)])
  {
    hide IndexOf, ModeOf, Limit, At, PosOk, ByteAt, Chain, Leaf, Place, Building, Attached, Missing, LevelOk;
    OffsetsReachable(v.geo.blockSize, h.it.offset);
    BuildDone(v.geo.blockSize, d, built, DiskOf(v, h), v.live, v.owner, h.ino, h.it.offset / v.geo.blockSize, j, grown);
  }

  /** A path whose blocks gave out on the way: two of its places hold the same block. */
  lemma LoopedShared(bs: nat, d: Disk, blocks: seq<Block>, d': Disk, live: set<nat>, owner: map<nat, Pos>, ino: nat,
                     n: nat, j: nat, newBlk: nat)
    requires BlockSizeOk(bs) && TreeInv(bs / 4, d, live, owner) && ino in live && n < Limit(bs / 4, 3)
    requires j < ModeOf(bs / 4, n) <= 3 && Looped(bs, d, blocks, owner, IndexOf(bs / 4, n), j, newBlk)
    requires Attached(bs, d, blocks, d', ino, IndexOf(bs / 4, n), j, newBlk)
    ensures Shared(bs / 4, d', live)
  {
    var links, index := bs / 4, IndexOf(bs / 4, n);
    PathPlaces(links, live, ino, n);
    IndexFits(bs, n);
    hide IndexOf, ModeOf, Limit, Place, Leaf, TreeInv;
    ChainsApart(ino, index, j, j + 1);
    if j > 0 {
      BuildTop(bs, d, live, owner, ino, index, j, map[]);
      UpperPath(bs, d, blocks, d', live, owner, ino, n, j, newBlk, j - 1);
      PutLinkLink(blocks[At(d, Chain(ino, index, j - 1))], index[j], newBlk, index[j]);
    }
    assert At(d', Chain(ino, index, j)) == newBlk;
    PutLinkLink(Zeros(bs), index[j + 1], newBlk, index[j + 1]);
    assert At(d', Chain(ino, index, j + 1)) == LinkAt(d', newBlk, index[j + 1]) == newBlk;
    assert Place(links, live, Chain(ino, index, j)) && Place(links, live, Chain(ino, index, j + 1));
  }

  lemma ChainsApart(ino: nat, index: seq<nat>, s: nat, t: nat)
    requires s < t < |index|
    ensures Chain(ino, index, s) != Chain(ino, index, t)
  {
    ChainShape(ino, index, s);
    ChainShape(ino, index, t);
  }

  /** Above the place where it is hung on the path is what it was. */
  lemma {:induction false} UpperPath(bs: nat, d: Disk, blocks: seq<Block>, d': Disk, live: set<nat>,
                                     owner: map<nat, Pos>, ino: nat, n: nat, j: nat, newBlk: nat, t: nat)
    requires BlockSizeOk(bs) && TreeInv(bs / 4, d, live, owner) && ino in live && n < Limit(bs / 4, 3)
    requires t < j < ModeOf(bs / 4, n) <= 3 && Looped(bs, d, blocks, owner, IndexOf(bs / 4, n), j, newBlk)
    requires Attached(bs, d, blocks, d', ino, IndexOf(bs / 4, n), j, newBlk)
    ensures At(d', Chain(ino, IndexOf(bs / 4, n), t)) == At(d, Chain(ino, IndexOf(bs / 4, n), t))
  {
    var index := IndexOf(bs / 4, n);
    PathPlaces(bs / 4, live, ino, n);
    hide IndexOf, ModeOf, Limit, IndexBlock;
    if t > 0 {
      UpperPath(bs, d, blocks, d', live, owner, ino, n, j, newBlk, t - 1);
      var x := At(d, Chain(ino, index, t - 1));
      if x != 0 {
        assert x in owner && owner[x] == Chain(ino, index, t - 1) by {
          assert Place(bs / 4, live, Chain(ino, index, t - 1));
        }
        ChainsApart(ino, index, t - 1, j - 1);
        BuildTop(bs, d, live, owner, ino, index, j, map[]);
        assert d'.blocks[x] == d.blocks[x];
      }
    }
  }

  lemma PathLooped(v: Volume, h: FileHandle, d: Disk, built: seq<Block>, j: nat, newBlk: nat)
    requires v.geo.Ok() && BlockSizeOk(v.geo.blockSize) && CursorOk(v.geo.blockSize, d, h.ino, h.it) && h.ino in v.live
    requires TreeInv(v.LinksPerBlock(), d, v.live, v.owner)
    requires |h.it.index| == 4 && j < h.it.mode <= 3
    requires Looped(v.geo.blockSize, d, built, v.owner, h.it.index, j, newBlk)
    requires Attached(v.geo.blockSize, d, built, DiskOf(v, h), h.ino, h.it.index, j, newBlk)
    ensures Shared(v.LinksPerBlock(), DiskOf(v, h), v.live)
  {
    hide *;
    LinksAre(v);
    CursorIndex(v.geo.blockSize, d, h.ino, h.it);
    LoopedShared(v.geo.blockSize, d, built, DiskOf(v, h), v.live, v.owner, h.ino, h.it.offset / v.geo.blockSize, j,
                 newBlk);
  }

  /** The top of the new path is hung on the lowest index block there is, or on the inode. */
  method HangPath(v: Volume, h: FileHandle, ghost d: Disk, j: nat, newBlk: nat, ghost grown: map<Pos, nat>,
                  ghost firstNew: nat, ghost count: nat, ghost short: bool)
    requires v.geo.Ok() && BlockSizeOk(v.geo.blockSize) && v.BlocksAccounted() && h.ino in v.live
    requires |h.it.index| == |h.it.blksBlk| == |h.it.blks| == |h.it.valid| == 4 && j <= h.it.mode <= 3
      && h.it.index[0] < SLOTS
    requires forall t | 1 <= t < 4 :: 4 * h.it.index[t] + 4 <= v.geo.blockSize
    requires h.ino < |v.inodes| && |h.inode.block| == SLOTS && d.inodes == v.inodes && h.inode == v.inodes[h.ino]
    requires CursorOk(v.geo.blockSize, d, h.ino, h.it) && TreeInv(v.LinksPerBlock(), d, v.live, v.owner)
    requires j > 0 ==> h.it.blksBlk[j] != 0 && LevelOk(d, h.ino, h.it, j)
    requires PathState(v.geo.blockSize, d, v.blocks, v.owner, v.used, h.ino, h.it.index, j, h.it.mode, grown, newBlk,
                       firstNew, count, short)
    modifies v`blocks, h`inode
    ensures v.BlocksAccounted()
    ensures h.inode == old(h.inode).(block := h.inode.block) && |h.inode.block| == SLOTS
    ensures short ==> Shared(v.LinksPerBlock(), DiskOf(v, h), v.live)
    ensures !short ==>
      && PathGrafted(v.geo.blockSize, d, DiskOf(v, h), v.live, v.owner, h.ino, h.it, grown, firstNew)
      && grown.Keys == Missing(d, ChainSet(h.ino, h.it.index, 0, h.it.mode))
      && v.used == v.owner.Keys + grown.Values && |grown| == count
  {
    hide *;
    ghost var built := v.blocks;
    PathStateBlock(v.geo.blockSize, d, built, v.owner, v.used, h.ino, h.it.index, j, h.it.mode, grown, newBlk, firstNew,
                   count, short);
    PathStateIs(v.geo.blockSize, d, built, v.owner, v.used, h.ino, h.it.index, j, h.it.mode, grown, newBlk, firstNew,
                count, short);
    if j > 0 {
      LevelFacts(d, h.ino, h.it, j);
    }
    Attach(v, h, d, j, newBlk);
    LinksAre(v);
    if short {
      PathLooped(v, h, d, built, j, newBlk);
    } else {
      PathBuiltFacts(v.geo.blockSize, d, built, v.owner, v.used, h.ino, h.it.index, j, h.it.mode, grown, newBlk,
                     firstNew, count);
      PathDone(v, h, d, built, j, grown);
    }
  }

  lemma CursorIndex(bs: nat, d: Disk, ino: nat, it: Cursor)
    requires BlockSizeOk(bs) && CursorOk(bs, d, ino, it)
    ensures bs > 0 && bs / 4 > 0 && it.offset / bs < Limit(bs / 4, 3)
    ensures it.index == IndexOf(bs / 4, it.offset / bs) && it.mode == ModeOf(bs / 4, it.offset / bs) <= 3
  {
    hide IndexOf, ModeOf, Limit;
    OffsetsReachable(bs, it.offset);
  }

  /** The new blocks of the current path have been taken one after the other from the group of the file's inode on. */
  ghost predicate PathPicks(v: Volume, h: FileHandle, marked: set<nat>, grown: map<Pos, nat>)
    requires v.geo.Ok() && h.ino > 0 && h.it.mode < |h.it.index|
    reads v`used, h`ino, h`it
  {
    Picking(v.geo, marked, v.Marked(), v.geo.InodeGroup(h.ino), PathBlocks(grown, h.ino, h.it.index, h.it.mode))
  }

  lemma PathPicksIs(v: Volume, h: FileHandle, marked: set<nat>, grown: map<Pos, nat>)
    requires v.geo.Ok() && h.ino > 0 && h.it.mode < |h.it.index|
    ensures PathPicks(v, h, marked, grown) <==>
      Picking(v.geo, marked, v.Marked(), v.geo.InodeGroup(h.ino), PathBlocks(grown, h.ino, h.it.index, h.it.mode))
  {
  }

  /** The device part of allocate_new_data_block: a new block for the current offset and, bottom up, the index blocks
      missing on its path, hung on the lowest existing one or on the inode. With no level of indirection the loop does
      not run and the block is hung on the inode at once. With fewer free blocks than the path is short of, and only
      then, some block ends up in two places. */
  method GraftPath(v: Volume, h: FileHandle)
    returns (firstNew: nat, count: nat, ghost grown: map<Pos, nat>)
    requires v.Sound() && Open(v, h) && AtHole(v, h) && v.freeBlocks > 0
    modifies v`blocks, v`groups, v`blockBits, v`used, h`inode
    ensures v.BlocksAccounted() && InodeCounts(v.groups) == old(InodeCounts(v.groups))
    ensures h.inode == old(h.inode).(block := h.inode.block) && |h.inode.block| == SLOTS
    ensures BlockSizeOk(v.geo.blockSize)
    ensures Shared(v.LinksPerBlock(), DiskOf(v, h), v.live) <==> |old(MissingHere(v, h))| > old(v.freeBlocks)
    ensures |old(MissingHere(v, h))| > old(v.freeBlocks) ==> Sum(BlockCounts(v.groups)) == 0
    ensures |old(MissingHere(v, h))| <= old(v.freeBlocks) ==>
      && PathGrafted(v.geo.blockSize, old(v.D()), DiskOf(v, h), v.live, v.owner, h.ino, h.it, grown, firstNew)
      && grown.Keys == old(MissingHere(v, h))
      && v.used == v.owner.Keys + grown.Values
      && |grown| == count && Sum(BlockCounts(v.groups)) + count == old(Sum(BlockCounts(v.groups)))
      && h.it.mode < |h.it.index| && PathPicks(v, h, old(v.Marked()), grown)
  {
    hide *;
    ghost var d := v.D();
    CursorFacts(v, h);
    OpenFacts(v, h);
    PlaceHereIs(h);
    LinksAre(v);
    var newBlk, j;
    ghost var short;
    firstNew, newBlk, j, count, grown, short := MakePath(v, h);
    HangPath(v, h, d, j, newBlk, grown, firstNew, count, short);
    PathPicksIs(v, h, old(v.Marked()), grown);
    if !short {
      GraftKeeps(v.geo.blockSize, d, DiskOf(v, h), v.live, v.owner, h.ino, h.it, grown, firstNew);
      SharedIsNoTree(v.LinksPerBlock(), DiskOf(v, h), v.live, Adopt(v.owner, grown));
      assert |grown.Keys| == |grown|;
    }
  }

  /** d' is d with a block grafted in for block n of file ino: that block's place changes from 0 to a new block, no
      other file block moves, and all files read as before. */
  ghost predicate Extended(bs: nat, d: Disk, d': Disk, live: set<nat>, grown: map<Pos, nat>, ino: nat, n: nat)
    requires BlockSizeOk(bs)
  {
    && n < Limit(bs / 4, 3)
    && (forall p | Place(bs / 4, live, p) :: At(d', p) == if p in grown then grown[p] else At(d, p))
    && FilePos(bs / 4, ino, n) in grown && (forall p | p in grown :: grown[p] != 0)
    && (forall i, m: nat | i in live ::
          BlockOf(bs, d', i, m) == if i == ino && m == n then grown[FilePos(bs / 4, ino, n)] else BlockOf(bs, d, i, m))
    && SameBytes(bs, d, d', live)
  }

  /** What GraftPath leaves: a graft for exactly the missing places of the current path, its data block zero-filled and
      all other data blocks untouched. */
  ghost predicate PathGrafted(bs: nat, d: Disk, d1: Disk, live: set<nat>, owner: map<nat, Pos>, ino: nat, it: Cursor,
                              grown: map<Pos, nat>, firstNew: nat)
    requires BlockSizeOk(bs)
  {
    && (exists q :: Grafted(bs / 4, d, d1, owner, grown, q))
    && it.mode < |it.index| && grown.Keys == Missing(d, ChainSet(ino, it.index, 0, it.mode))
    && Chain(ino, it.index, it.mode) in grown && firstNew == grown[Chain(ino, it.index, it.mode)]
    && (forall p | p in grown :: Place(bs / 4, live, p))
    && (forall p | p in grown && Leaf(p) :: grown[p] < |d1.blocks| && d1.blocks[grown[p]] == Zeros(bs))
    && (forall b | b in owner && (Leaf(owner[b]) || InoOf(owner[b]) != ino) ::
        b < |d1.blocks| && b < |d.blocks| && d1.blocks[b] == d.blocks[b])
  }

  /** A finished path is a graft that keeps the tree, the contents and the block counts in order. */
  lemma GraftKeeps(bs: nat, d: Disk, d1: Disk, live: set<nat>, owner: map<nat, Pos>, ino: nat, it: Cursor,
                   grown: map<Pos, nat>, firstNew: nat)
    requires BlockSizeOk(bs) && TreeInv(bs / 4, d, live, owner) && CursorOk(bs, d, ino, it) && ino in live
    requires PathGrafted(bs, d, d1, live, owner, ino, it, grown, firstNew)
    ensures TreeInv(bs / 4, d1, live, Adopt(owner, grown))
    ensures Extended(bs, d, d1, live, grown, ino, it.offset / bs)
    ensures |FileBlocks(Adopt(owner, grown), ino)| == |FileBlocks(owner, ino)| + |grown|
    ensures forall i | i != ino :: FileBlocks(Adopt(owner, grown), i) == FileBlocks(owner, i)
    ensures Adopt(owner, grown).Keys == owner.Keys + grown.Values
    ensures OwnersGrow(owner, Adopt(owner, grown), ino)
    ensures Untouched(bs / 4, d, d1, live, owner, ino)
  {
    hide *;
    BlockSizePositive(bs);
    GraftKeepsFiles(bs, d, d1, live, owner, ino, it, grown, firstNew);
    GraftKeepsOwners(bs, d, d1, live, owner, ino, it, grown, firstNew);
  }

  lemma GrownIsIn(bs: nat, d: Disk, d1: Disk, live: set<nat>, owner: map<nat, Pos>, ino: nat, it: Cursor,
                  grown: map<Pos, nat>, firstNew: nat)
    requires BlockSizeOk(bs) && CursorOk(bs, d, ino, it) && ino in live
    requires PathGrafted(bs, d, d1, live, owner, ino, it, grown, firstNew)
    ensures it.mode < |it.index|
    ensures forall p | p in grown :: InoOf(p) == ino && (Leaf(p) ==> p == Chain(ino, it.index, it.mode))
  {
    hide *;
    PathGraftedFacts(bs, d, d1, live, owner, ino, it, grown, firstNew);
    CursorPath(bs, d, live, ino, it);
    forall p | p in grown
      ensures InoOf(p) == ino && (Leaf(p) ==> p == Chain(ino, it.index, it.mode))
    {
      assert p == Chain(ino, it.index, Depth(p)) && Depth(p) <= it.mode by { MissingIn(d, ino, it.index, it.mode, p); }
    }
  }

  lemma GraftKeepsFiles(bs: nat, d: Disk, d1: Disk, live: set<nat>, owner: map<nat, Pos>, ino: nat, it: Cursor,
                        grown: map<Pos, nat>, firstNew: nat)
    requires BlockSizeOk(bs) && TreeInv(bs / 4, d, live, owner) && CursorOk(bs, d, ino, it) && ino in live
    requires PathGrafted(bs, d, d1, live, owner, ino, it, grown, firstNew)
    ensures TreeInv(bs / 4, d1, live, Adopt(owner, grown))
    ensures Extended(bs, d, d1, live, grown, ino, it.offset / bs)
    ensures Untouched(bs / 4, d, d1, live, owner, ino)
  {
    hide *;
    BlockSizePositive(bs);
    PathGraftedFacts(bs, d, d1, live, owner, ino, it, grown, firstNew);
    GrownIsIn(bs, d, d1, live, owner, ino, it, grown, firstNew);
    var q :| Grafted(bs / 4, d, d1, owner, grown, q);
    var n := it.offset / bs;
    CursorPath(bs, d, live, ino, it);
    GraftedFacts(bs / 4, d, d1, owner, grown, q);
    Graft(bs / 4, d, d1, live, owner, grown, q);
    GraftBytes(bs, d, d1, live, owner, grown, q);
    GraftBlockMap(bs, d, d1, live, grown, ino, n);
    ExtendedIntro(bs, d, d1, live, grown, ino, n);
    UntouchedIntro(bs / 4, d, d1, live, owner, ino, grown);
  }

  lemma GraftKeepsOwners(bs: nat, d: Disk, d1: Disk, live: set<nat>, owner: map<nat, Pos>, ino: nat, it: Cursor,
                         grown: map<Pos, nat>, firstNew: nat)
    requires BlockSizeOk(bs) && TreeInv(bs / 4, d, live, owner) && CursorOk(bs, d, ino, it) && ino in live
    requires PathGrafted(bs, d, d1, live, owner, ino, it, grown, firstNew)
    ensures |FileBlocks(Adopt(owner, grown), ino)| == |FileBlocks(owner, ino)| + |grown|
    ensures forall i | i != ino :: FileBlocks(Adopt(owner, grown), i) == FileBlocks(owner, i)
    ensures Adopt(owner, grown).Keys == owner.Keys + grown.Values
    ensures OwnersGrow(owner, Adopt(owner, grown), ino)
  {
    hide *;
    BlockSizePositive(bs);
    PathGraftedFacts(bs, d, d1, live, owner, ino, it, grown, firstNew);
    GrownIsIn(bs, d, d1, live, owner, ino, it, grown, firstNew);
    var q :| Grafted(bs / 4, d, d1, owner, grown, q);
    GraftedFacts(bs / 4, d, d1, owner, grown, q);
    GraftFileBlocks(owner, grown, ino);
    AdoptKeys(owner, grown);
    GraftOwnersBut(owner, grown, ino);
  }

  lemma PathGraftedFacts(bs: nat, d: Disk, d1: Disk, live: set<nat>, owner: map<nat, Pos>, ino: nat, it: Cursor,
                         grown: map<Pos, nat>, firstNew: nat)
    requires BlockSizeOk(bs) && PathGrafted(bs, d, d1, live, owner, ino, it, grown, firstNew)
    ensures exists q :: Grafted(bs / 4, d, d1, owner, grown, q)
    ensures it.mode < |it.index| && grown.Keys == Missing(d, ChainSet(ino, it.index, 0, it.mode))
    ensures Chain(ino, it.index, it.mode) in grown && firstNew == grown[Chain(ino, it.index, it.mode)]
    ensures forall p | p in grown :: Place(bs / 4, live, p)
    ensures forall p | p in grown && Leaf(p) :: grown[p] < |d1.blocks| && d1.blocks[grown[p]] == Zeros(bs)
    ensures forall b | b in owner && (Leaf(owner[b]) || InoOf(owner[b]) != ino) ::
      b < |d1.blocks| && b < |d.blocks| && d1.blocks[b] == d.blocks[b]
  {
  }

  lemma UntouchedIntro(links: nat, d: Disk, d1: Disk, live: set<nat>, owner: map<nat, Pos>, ino: nat,
                       grown: map<Pos, nat>)
    requires |d1.blocks| == |d.blocks|
    requires forall b | b in owner && InoOf(owner[b]) != ino :: b < |d.blocks| && d1.blocks[b] == d.blocks[b]
    requires forall p | Place(links, live, p) :: At(d1, p) == if p in grown then grown[p] else At(d, p)
    requires forall p | p in grown :: InoOf(p) == ino
    ensures Untouched(links, d, d1, live, owner, ino)
  {
    hide At, Place, InoOf;
  }

  lemma MissingIn(d: Disk, ino: nat, index: seq<nat>, mode: nat, p: Pos)
    requires mode < |index| && p in Missing(d, ChainSet(ino, index, 0, mode))
    ensures Depth(p) <= mode && p == Chain(ino, index, Depth(p))
  {
  }

  lemma CursorPath(bs: nat, d: Disk, live: set<nat>, ino: nat, it: Cursor)
    requires BlockSizeOk(bs) && CursorOk(bs, d, ino, it) && ino in live
    ensures var n := it.offset / bs;
      && n < Limit(bs / 4, 3) && it.mode <= 3 && |it.index| == 4
      && FilePos(bs / 4, ino, n) == Chain(ino, it.index, it.mode)
    ensures forall t: nat | t <= it.mode ::
      && InoOf(Chain(ino, it.index, t)) == ino
      && (Leaf(Chain(ino, it.index, t)) ==> t == it.mode)
  {
    var n := it.offset / bs;
    OffsetsReachable(bs, it.offset);
    forall t: nat | t <= it.mode
      ensures InoOf(Chain(ino, it.index, t)) == ino
      ensures Leaf(Chain(ino, it.index, t)) ==> t == it.mode
    {
      PathOk(bs / 4, ino, n, t);
    }
  }

  lemma ExtendedIntro(bs: nat, d: Disk, d': Disk, live: set<nat>, grown: map<Pos, nat>, ino: nat, n: nat)
    requires BlockSizeOk(bs) && n < Limit(bs / 4, 3)
    requires forall p | Place(bs / 4, live, p) :: At(d', p) == if p in grown then grown[p] else At(d, p)
    requires FilePos(bs / 4, ino, n) in grown && (forall p | p in grown :: grown[p] != 0)
    requires forall i, m: nat | i in live ::
      BlockOf(bs, d', i, m) == if i == ino && m == n then grown[FilePos(bs / 4, ino, n)] else BlockOf(bs, d, i, m)
    requires SameBytes(bs, d, d', live)
    ensures Extended(bs, d, d', live, grown, ino, n)
  {
  }

  lemma GraftedFacts(links: nat, d: Disk, d': Disk, owner: map<nat, Pos>, grown: map<Pos, nat>, q: Pos)
    requires Grafted(links, d, d', owner, grown, q)
    ensures |d'.blocks| == |d.blocks|
    ensures forall p | p in grown :: 0 < grown[p] < |d.blocks| && grown[p] !in owner && At(d, p) == 0
    ensures forall p, p' | p in grown && p' in grown && grown[p] == grown[p'] :: p == p'
  {
  }

  /** The new blocks on the path to block n of file ino: the data block first, then the index blocks from the lowest
      missing one upwards, each the first free one from the group of the file's inode on when those before it have been
      taken. */
  ghost predicate PicksAt(geo: Geometry, marked: set<nat>, marked': set<nat>, grown: map<Pos, nat>, ino: nat, n: nat) {
    && geo.Ok() && geo.IsInode(ino)
    && Picking(geo, marked, marked', geo.InodeGroup(ino),
               PathBlocks(grown, ino, IndexOf(geo.blockSize / 4, n), ModeOf(geo.blockSize / 4, n)))
  }

  lemma PicksAtIntro(geo: Geometry, marked: set<nat>, marked': set<nat>, grown: map<Pos, nat>, ino: nat, n: nat)
    requires geo.Ok() && geo.IsInode(ino)
    requires Picking(geo, marked, marked', geo.InodeGroup(ino),
                     PathBlocks(grown, ino, IndexOf(geo.blockSize / 4, n), ModeOf(geo.blockSize / 4, n)))
    ensures PicksAt(geo, marked, marked', grown, ino, n)
  {
    hide Picking, PathBlocks, IndexOf, ModeOf, Geometry.Ok;
  }

  /** The data block is the first of them. */
  lemma DataBlockPicked(geo: Geometry, marked: set<nat>, marked': set<nat>, grown: map<Pos, nat>, ino: nat, n: nat)
    requires PicksAt(geo, marked, marked', grown, ino, n) && FilePos(geo.blockSize / 4, ino, n) in grown
    ensures BlockChosen(geo, marked, geo.InodeGroup(ino), grown[FilePos(geo.blockSize / 4, ino, n)])
  {
    GeometryBlockSize(geo);
    hide BlockChosen, IndexOf, ModeOf, Chain, Geometry.Ok;
    var blocks := PathBlocks(grown, ino, IndexOf(geo.blockSize / 4, n), ModeOf(geo.blockSize / 4, n));
    assert |grown| > 0;
    assert blocks[..0] == [] && marked + Members([]) == marked;
  }

  /** The first half of allocate_new_data_block: the graft, and the cursor read in again. */
  method GraftAndReload(v: Volume, h: FileHandle) returns (count: nat, ghost grown: map<Pos, nat>)
    requires v.Sound() && Open(v, h) && AtHole(v, h) && 0 < v.freeBlocks && |MissingHere(v, h)| <= v.freeBlocks
    modifies v`blocks, v`groups, v`blockBits, v`used, v`owner, h`inode, h`it
    ensures v.BlocksAccounted() && InodeCounts(v.groups) == old(InodeCounts(v.groups))
    ensures h.inode == old(h.inode).(block := h.inode.block) && |h.inode.block| == SLOTS
    ensures h.it.offset == old(h.it.offset) && v.owner == Adopt(old(v.owner), grown)
    ensures BlockSizeOk(v.geo.blockSize)
    ensures Regrown(v.geo.blockSize, old(v.D()), DiskOf(v, h), v.live, old(v.owner), v.owner, v.used, h.ino, h.it,
                    grown, count)
    ensures grown.Keys == old(MissingHere(v, h))
    ensures Sum(BlockCounts(v.groups)) + count == old(Sum(BlockCounts(v.groups)))
    ensures PicksAt(v.geo, old(v.Marked()), v.Marked(), grown, h.ino, h.it.offset / v.geo.blockSize)
  {
    hide *;
    HoleFacts(v, h);
    OpenFacts(v, h);
    LinksAre(v);
    ghost var d := v.D();
    ghost var it := h.it;
    var offset := h.it.offset;
    var firstNew;
    firstNew, count, grown := GraftPath(v, h);
    GraftKeeps(v.geo.blockSize, d, DiskOf(v, h), v.live, v.owner, h.ino, h.it, grown, firstNew);
    v.owner := Adopt(v.owner, grown);
    CursorIndex(v.geo.blockSize, d, h.ino, it);
    PathPicksIs(v, h, old(v.Marked()), grown);
    PicksAtIntro(v.geo, old(v.Marked()), v.Marked(), grown, h.ino, offset / v.geo.blockSize);
    CursorInit(v, h, offset);
    RegrownIntro(v.geo.blockSize, d, DiskOf(v, h), v.live, old(v.owner), v.owner, v.used, h.ino, h.it, grown, count);
  }

  /** The tree, contents, cursor and bitmap after a graft, before the inode's size and block count are brought up to
      date. */
  ghost predicate Regrown(bs: nat, d: Disk, d1: Disk, live: set<nat>, owner: map<nat, Pos>, owner': map<nat, Pos>,
                          used: set<nat>,
                          ino: nat, it: Cursor, grown: map<Pos, nat>, count: nat)
    requires BlockSizeOk(bs)
  {
    && CursorOk(bs, d1, ino, it)
    && Extended(bs, d, d1, live, grown, ino, it.offset / bs)
    && TreeInv(bs / 4, d1, live, owner')
    && used == owner'.Keys
    && |FileBlocks(owner', ino)| == |FileBlocks(owner, ino)| + count
    && (forall i | i != ino :: FileBlocks(owner', i) == FileBlocks(owner, i))
    && OwnersGrow(owner, owner', ino)
    && Untouched(bs / 4, d, d1, live, owner, ino)
    && |grown| == count
  }

  lemma RegrownIntro(bs: nat, d: Disk, d1: Disk, live: set<nat>, owner: map<nat, Pos>, owner': map<nat, Pos>,
                     used: set<nat>,
                     ino: nat, it: Cursor, grown: map<Pos, nat>, count: nat)
    requires BlockSizeOk(bs) && CursorOk(bs, d1, ino, it)
    requires Extended(bs, d, d1, live, grown, ino, it.offset / bs)
    requires TreeInv(bs / 4, d1, live, owner') && used == owner'.Keys && |grown| == count
    requires |FileBlocks(owner', ino)| == |FileBlocks(owner, ino)| + count
    requires forall i | i != ino :: FileBlocks(owner', i) == FileBlocks(owner, i)
    requires OwnersGrow(owner, owner', ino) && Untouched(bs / 4, d, d1, live, owner, ino)
    ensures Regrown(bs, d, d1, live, owner, owner', used, ino, it, grown, count)
  {
  }

  /** `ASSERT(blk_iterator_get_blk_index(it) == first_new_blk)`: the reloaded cursor answers with the new data block. */
  ghost predicate SeesNew(bs: nat, ino: nat, it: Cursor, grown: map<Pos, nat>) {
    && BlockSizeOk(bs) && |it.blks| == |it.valid| == |it.blksBlk| == |it.index| == 4 && it.mode <= 3
    && FilePos(bs / 4, ino, it.offset / bs) in grown
    && BlkIndex(it) == grown[FilePos(bs / 4, ino, it.offset / bs)]
  }

  lemma CursorSeesNew(bs: nat, d: Disk, d': Disk, live: set<nat>, grown: map<Pos, nat>, ino: nat, it: Cursor)
    requires BlockSizeOk(bs) && CursorOk(bs, d', ino, it) && ino in live
      && Extended(bs, d, d', live, grown, ino, it.offset / bs)
    ensures SeesNew(bs, ino, it, grown)
  {
    hide At, Place, ByteAt, BlockOf, FilePos;
    CursorIsWalk(bs, d', ino, it);
  }

  lemma NewPlace(bs: nat, d: Disk, d': Disk, live: set<nat>, grown: map<Pos, nat>, ino: nat, n: nat)
    requires BlockSizeOk(bs) && Extended(bs, d, d', live, grown, ino, n)
    ensures FilePos(bs / 4, ino, n) in grown
  {
    hide At, Place, FilePos, BlockOf;
  }

  /** allocate_new_data_block. */
  method AllocateNewDataBlock(v: Volume, h: FileHandle, toWrite: nat) returns (ghost grown: map<Pos, nat>)
    requires v.Sound() && Open(v, h) && AtHole(v, h)
    requires v.freeBlocks == 0 || |MissingHere(v, h)| <= v.freeBlocks
    requires h.it.offset + toWrite < TWO32
    modifies v`blocks, v`inodes, v`groups, v`blockBits, v`freeBlocks, v`used, v`owner, h`inode, h`it
    ensures v.Sound() && Open(v, h) && h.it.offset == old(h.it.offset)
    ensures old(v.freeBlocks) == 0 ==> unchanged(v) && unchanged(h)
    ensures old(v.freeBlocks) > 0 ==> SeesNew(v.geo.blockSize, h.ino, h.it, grown)
    ensures old(v.freeBlocks) > 0 ==>
      && Extended(v.geo.blockSize, old(v.D()), v.D(), v.live, grown, h.ino, h.it.offset / v.geo.blockSize)
      && Untouched(v.geo.blockSize / 4, old(v.D()), v.D(), v.live, old(v.owner), h.ino)
      && grown.Keys == old(MissingHere(v, h))
      && v.owner == Adopt(old(v.owner), grown) && OwnersGrow(old(v.owner), v.owner, h.ino)
      && PicksAt(v.geo, old(v.Marked()), v.Marked(), grown, h.ino, h.it.offset / v.geo.blockSize)
      && v.freeBlocks + |grown| == old(v.freeBlocks)
      && v.inodes == old(v.inodes)[h.ino := h.inode]
      && h.inode == old(h.inode).(block := h.inode.block, iblocks := h.inode.iblocks,
           size := if h.it.offset + toWrite > old(h.inode.size) then h.it.offset + toWrite else old(h.inode.size))
    ensures old(v.freeBlocks) > 0 ==>
      BlockChosen(v.geo, old(v.Marked()), v.geo.InodeGroup(h.ino),
                  grown[FilePos(v.geo.blockSize / 4, h.ino, h.it.offset / v.geo.blockSize)])
  {
    hide *;
    if v.freeBlocks == 0 {
      grown := map[];
      return;
    }
    OpenFacts(v, h);
    SoundFacts(v);
    ghost var d := v.D();
    var count;
    count, grown := GraftAndReload(v, h);
    ghost var d1 := DiskOf(v, h);
    DiskOfIs(v, h);
    var end := h.it.offset + toWrite;
    h.inode := h.inode.(size := if end > h.inode.size then end else h.inode.size,
                        iblocks := h.inode.iblocks + InSectors(count, v.geo.blockSize));
    RegrownFacts(v.geo.blockSize, d, d1, v.live, old(v.owner), v.owner, v.used, h.ino, h.it, grown, count);
    v.freeBlocks := v.freeBlocks - count;
    WriteInode(v, h);
    DiskOfIs(v, h);
    GraftRecorded(v.geo, d, d1, v.D(), v.live, h.ino, h.it, old(v.owner), v.owner, v.used, grown, count, end,
                  old(v.Marked()), v.Marked());
    SoundIntro(v);
    OpenIntro(v, h);
  }

  /** All that holds when the inode has been written. */
  lemma GraftRecorded(geo: Geometry, d: Disk, d1: Disk, d2: Disk, live: set<nat>, ino: nat, it: Cursor,
                      owner: map<nat, Pos>, owner': map<nat, Pos>, used: set<nat>, grown: map<Pos, nat>, count: nat,
                      end: nat, marked: set<nat>, marked': set<nat>)
    requires BlockSizeOk(geo.blockSize) && ino < |d.inodes| == |d1.inodes| == |d2.inodes| && d2.blocks == d1.blocks
    requires d1.inodes == d.inodes[ino := d1.inodes[ino]] && d2.inodes == d.inodes[ino := d2.inodes[ino]]
    requires d2.inodes[ino].block == d1.inodes[ino].block && end < TWO32
    requires d2.inodes[ino].size == if end > d.inodes[ino].size then end else d.inodes[ino].size
    requires d2.inodes[ino].iblocks == d.inodes[ino].iblocks + InSectors(count, geo.blockSize)
    requires Regrown(geo.blockSize, d, d1, live, owner, owner', used, ino, it, grown, count)
    requires SizesOk(d, live) && SectorsOk(geo.blockSize, d, live, owner) && ino in live
    requires PicksAt(geo, marked, marked', grown, ino, it.offset / geo.blockSize)
    ensures Extended(geo.blockSize, d, d2, live, grown, ino, it.offset / geo.blockSize)
    ensures CursorOk(geo.blockSize, d2, ino, it) && TreeInv(geo.blockSize / 4, d2, live, owner')
    ensures Untouched(geo.blockSize / 4, d, d2, live, owner, ino)
    ensures SizesOk(d2, live) && SectorsOk(geo.blockSize, d2, live, owner')
    ensures SeesNew(geo.blockSize, ino, it, grown)
    ensures geo.Ok() && geo.IsInode(ino) && FilePos(geo.blockSize / 4, ino, it.offset / geo.blockSize) in grown
    ensures BlockChosen(geo, marked, geo.InodeGroup(ino),
                        grown[FilePos(geo.blockSize / 4, ino, it.offset / geo.blockSize)])
  {
    hide *;
    BlockSizePositive(geo.blockSize);
    InodeWritten(geo.blockSize, d, d1, d2, live, ino, it, owner, owner', used, grown, count, end);
    CursorSeesNew(geo.blockSize, d, d2, live, grown, ino, it);
    NewPlace(geo.blockSize, d, d2, live, grown, ino, it.offset / geo.blockSize);
    DataBlockPicked(geo, marked, marked', grown, ino, it.offset / geo.blockSize);
    PicksAtInode(geo, marked, marked', grown, ino, it.offset / geo.blockSize);
  }

  lemma PicksAtInode(geo: Geometry, marked: set<nat>, marked': set<nat>, grown: map<Pos, nat>, ino: nat, n: nat)
    requires PicksAt(geo, marked, marked', grown, ino, n)
    ensures geo.Ok() && geo.IsInode(ino)
  {
    hide Picking, PathBlocks;
  }

  lemma RegrownFacts(bs: nat, d: Disk, d1: Disk, live: set<nat>, owner: map<nat, Pos>, owner': map<nat, Pos>,
                     used: set<nat>,
                     ino: nat, it: Cursor, grown: map<Pos, nat>, count: nat)
    requires BlockSizeOk(bs) && Regrown(bs, d, d1, live, owner, owner', used, ino, it, grown, count)
    ensures |grown| == count && used == owner'.Keys
    ensures OwnersGrow(owner, owner', ino)
  {
  }

  /** `blocks_new_allocated * ext2_blocksize/512` */
  function InSectors(count: nat, bs: nat): nat {
    count * bs / 512
  }

  lemma BlocksToSectors(bs: nat, n: nat, count: nat)
    requires BlockSizeOk(bs)
    ensures n * (bs / 512) + InSectors(count, bs) == (n + count) * (bs / 512)
  {
    assert count * bs == (count * (bs / 512)) * 512;
  }

  /** Writing back the inode with its new size and block count completes the picture. */
  lemma InodeWritten(bs: nat, d: Disk, d1: Disk, d2: Disk, live: set<nat>, ino: nat, it: Cursor,
                     owner: map<nat, Pos>, owner': map<nat, Pos>, used: set<nat>, grown: map<Pos, nat>, count: nat,
                       end: nat)
    requires BlockSizeOk(bs) && ino < |d.inodes| == |d1.inodes| == |d2.inodes| && d2.blocks == d1.blocks
    requires d1.inodes == d.inodes[ino := d1.inodes[ino]] && d2.inodes == d.inodes[ino := d2.inodes[ino]]
    requires d2.inodes[ino].block == d1.inodes[ino].block && end < TWO32
    requires d2.inodes[ino].size == if end > d.inodes[ino].size then end else d.inodes[ino].size
    requires d2.inodes[ino].iblocks == d.inodes[ino].iblocks + InSectors(count, bs)
    requires Regrown(bs, d, d1, live, owner, owner', used, ino, it, grown, count)
    requires SizesOk(d, live) && SectorsOk(bs, d, live, owner) && ino in live
    ensures Extended(bs, d, d2, live, grown, ino, it.offset / bs)
    ensures CursorOk(bs, d2, ino, it) && TreeInv(bs / 4, d2, live, owner')
    ensures Untouched(bs / 4, d, d2, live, owner, ino)
    ensures SizesOk(d2, live) && SectorsOk(bs, d2, live, owner')
  {
    hide At, FilePos, PosOk, BlockOf, ByteAt, CursorOk, TreeInv, Limit, FileBlocks, Untouched, OwnersBut;
    forall i, s ensures SlotAt(d2, i, s) == SlotAt(d1, i, s) { }
    SameSlotsAt(d1, d2);
    SameSlotsBytes(bs, d1, d2, live);
    CursorSameSlots(bs, d1, d2, ino, it);
    SameSlotsTree(bs / 4, d1, d2, live, owner');
    UntouchedSameSlots(bs / 4, d, d1, d2, live, owner, ino);
    BlocksToSectors(bs, |FileBlocks(owner, ino)|, count);
  }

  /** The guard of allocate_new_data_block asks for one free block. That is what a hole needs exactly when the path down
      to its last index block is already there: always for a direct block, and for no other block whose last index block
      is missing. */
  lemma GuardSuffices(d: Disk, ino: nat, links: nat, n: nat)
    requires links > 0 && At(d, FilePos(links, ino, n)) == 0
    ensures |Missing(d, PathSet(links, ino, n))| <= 1 <==>
      ModeOf(links, n) == 0 || At(d, Chain(ino, IndexOf(links, n), ModeOf(links, n) - 1)) != 0
  {
    hide IndexOf, ModeOf, At, Chain, ChainSet;
    var index, mode := IndexOf(links, n), ModeOf(links, n);
    if mode == 0 || At(d, Chain(ino, index, mode - 1)) != 0 {
      LeafMissing(d, ino, index, mode);
    } else {
      TwoMissing(d, ino, index, mode);
    }
  }

  lemma LeafMissing(d: Disk, ino: nat, index: seq<nat>, mode: nat)
    requires mode < |index| && (mode == 0 || At(d, Chain(ino, index, mode - 1)) != 0)
    ensures |Missing(d, ChainSet(ino, index, 0, mode))| <= 1
  {
    hide At;
    var leaf := Chain(ino, index, mode);
    forall p | p in Missing(d, ChainSet(ino, index, 0, mode))
      ensures p in {leaf}
    {
      var t := Depth(p);
      assert p == Chain(ino, index, t);
      if t < mode { ChainMissing(d, ino, index, t, mode - 1); }
    }
    SubsetSize(Missing(d, ChainSet(ino, index, 0, mode)), {leaf});
  }

  lemma TwoMissing(d: Disk, ino: nat, index: seq<nat>, mode: nat)
    requires 0 < mode < |index| && At(d, Chain(ino, index, mode)) == 0 == At(d, Chain(ino, index, mode - 1))
    ensures |Missing(d, ChainSet(ino, index, 0, mode))| >= 2
  {
    hide At;
    var above, leaf := Chain(ino, index, mode - 1), Chain(ino, index, mode);
    InChainSet(ino, index, 0, mode);
    ChainShape(ino, index, mode - 1);
    ChainShape(ino, index, mode);
    assert above != leaf;
    SubsetSize({above, leaf}, Missing(d, ChainSet(ino, index, 0, mode)));
    assert |{above, leaf}| == 2;
  }
}
