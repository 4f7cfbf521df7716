/** get_indirect_blocks: from the number of a block inside a file to its place in the tree of links. */
module BlockIndex {
  import opened Arithmetic
  import opened Bytes

  const DIRECT_LINKS: nat := 12

  /** A block holds 256 or 512 links: the block size is 1024 or 2048. */
  ghost predicate LinksOk(links: nat) {
    links == 256 || links == 512
  }

  /** limits[i]: the number of file blocks that need at most i levels of indirection. */
  function Limit(links: nat, i: nat): nat {
    if i == 0 then DIRECT_LINKS
    else if i == 1 then DIRECT_LINKS + links
    else if i == 2 then DIRECT_LINKS + links + links * links
    else DIRECT_LINKS + links + links * links + links * links * links
  }

  function ModeOf(links: nat, n: nat): (mode: nat)
    ensures mode <= 3
  {
    if n < Limit(links, 0) then 0 else if n < Limit(links, 1) then 1 else if n < Limit(links, 2) then 2 else 3
  }

  /** m with its k lowest base-`links` digits dropped. */
  function Shift(links: nat, m: nat, k: nat): nat
    requires links > 0
  {
    if k == 0 then m else Shift(links, m, k - 1) / links
  }

  /** The number of block n counted from the first block of its mode. */
  function Rank(links: nat, n: nat): nat
  {
    var mode := ModeOf(links, n);
    if mode == 0 then n else n - Limit(links, mode - 1)
  }

  function IndexOf(links: nat, n: nat): (index: seq<nat>)
    requires links > 0
    ensures |index| == 4
  {
    var mode := ModeOf(links, n);
    var m := Rank(links, n);
    seq(4, t requires 0 <= t < 4 =>
      if t == 0 then if mode == 0 then m else 11 + mode
      else if t <= mode then Shift(links, m, mode - t) % links
      else 0)
  }

  /** The mode an index vector belongs to, read off its first entry. */
  function ModeOfIndex(index: seq<nat>): nat
    requires |index| == 4
  {
    if index[0] < DIRECT_LINKS then 0 else index[0] - 11
  }

  /** Entries 1..k of an index vector as one number in base `links`. */
  function Horner(links: nat, index: seq<nat>, k: nat): nat
    requires k < |index|
  {
    if k == 0 then 0 else Horner(links, index, k - 1) * links + index[k]
  }

  /** The block number that test_get_indirect_blocks puts together from an index vector. */
  function Reconstruct(links: nat, index: seq<nat>): nat
    requires |index| == 4 && ModeOfIndex(index) <= 3
  {
    var mode := ModeOfIndex(index);
    if mode == 0 then index[0] else Limit(links, mode - 1) + Horner(links, index, mode)
  }

  method GetIndirectBlocks(blockSize: nat, offset: nat) returns (index: seq<nat>, mode: nat)
    requires blockSize == 1024 || blockSize == 2048
    requires offset < TWO32
    ensures mode == ModeOf(blockSize / 4, offset / blockSize)
    ensures index == IndexOf(blockSize / 4, offset / blockSize)
  {
    hide Limit, ModeOf, Rank, IndexOf, Shift;
    var links := blockSize / 4;
    var m := offset / blockSize;
    var limits := new nat[4];
    LimitsAre(links);
    var dd := links;
    limits[0] := DIRECT_LINKS;
    limits[1] := limits[0] + dd;
    dd := dd * links;
    limits[2] := limits[1] + dd;
    dd := dd * links;
    limits[3] := limits[2] + dd;
    OffsetsReachable(blockSize, offset);
    index := [0, 0, 0, 0];
    var i := 0;
    while m >= limits[i]
      invariant i <= 3
      invariant forall k | 0 <= k < i :: m >= Limit(links, k)
      decreases 3 - i
    {
      i := i + 1;
    }
    mode := i;
    ghost var n := m;
    ModeIs(links, n, mode);
    var j := i;
    if i > 0 {
      m := m - limits[i - 1];
    }
    ghost var rank := m;
    ShiftNone(links, rank);
    while j > 0
      invariant 0 <= j <= i
      invariant |index| == 4
      invariant m == Shift(links, rank, i - j)
      invariant forall t | 0 <= t < 4 ::
        index[t] == if j < t <= i then Shift(links, rank, i - t) % links else 0
    {
      index := index[j := m % links];
      DropDigit(m, links);
      ShiftOne(links, rank, i - j);
      m := (m - index[j]) / links;
      j := j - 1;
    }
    IndexDone(links, n, index, m);
    index := index[0 := if i == 0 then m else 11 + i];
  }

  lemma LimitsAre(links: nat)
    ensures Limit(links, 0) == DIRECT_LINKS && Limit(links, 1) == Limit(links, 0) + links
    ensures Limit(links, 2) == Limit(links, 1) + links * links
    ensures Limit(links, 3) == Limit(links, 2) + links * links * links
  {
  }

  /** The scan of the limits stops at the mode of the block, and the block's rank is counted from the limit before. */
  lemma ModeIs(links: nat, n: nat, mode: nat)
    requires mode <= 3 && n < Limit(links, mode) && forall k | 0 <= k < mode :: n >= Limit(links, k)
    ensures mode == ModeOf(links, n)
    ensures Rank(links, n) == if mode == 0 then n else n - Limit(links, mode - 1)
  {
    hide Limit;
  }

  /** The index vector by mode: 12 direct blocks, then one, two and three digits of the rank in base `links` behind the
      slots 12, 13 and 14. */
  lemma IndexByMode(links: nat, n: nat)
    requires links > 0
    ensures var m := Rank(links, n);
      IndexOf(links, n) == match ModeOf(links, n)
        case 0 => [m, 0, 0, 0]
        case 1 => [12, m % links, 0, 0]
        case 2 => [13, m / links % links, m % links, 0]
        case _ => [14, m / links / links % links, m / links % links, m % links]
  {
    var m := Rank(links, n);
    ShiftNone(links, m);
    ShiftOne(links, m, 0);
    ShiftOne(links, m, 1);
    hide Shift, ModeOf, Rank, Limit;
  }

  /** The same in the block number: each mode begins where the one before ends, and a first digit needs no cutting. */
  lemma IndexDirect(links: nat, n: nat)
    requires links > 0 && n < 12 + links
    ensures IndexOf(links, n) == if n < 12 then [n, 0, 0, 0] else [12, n - 12, 0, 0]
  {
    LimitsAre(links);
    hide *;
    TwelveDirect();
    IndexByMode(links, n);
    if n < 12 {
      ModeIs(links, n, 0);
    } else {
      ModeIs(links, n, 1);
      SmallDigit(links, n - 12);
    }
  }

  lemma IndexDouble(links: nat, n: nat)
    requires links > 0 && 12 + links <= n < 12 + links + links * links
    ensures var m := n - 12 - links; IndexOf(links, n) == [13, m / links, m % links, 0]
  {
    LimitsAre(links);
    hide *;
    TwelveDirect();
    ModeIs(links, n, 2);
    IndexByMode(links, n);
    TopDigit(links, n - 12 - links, links);
  }

  lemma IndexTriple(links: nat, n: nat)
    requires links > 0
    requires 12 + links + links * links <= n < 12 + links + links * links + links * links * links
    ensures var m := n - 12 - links - links * links;
      IndexOf(links, n) == [14, m / links / links, m / links % links, m % links]
  {
    LimitsAre(links);
    hide *;
    TwelveDirect();
    var two := links * links;
    var three := two * links;
    var m := n - 12 - links - two;
    ModeIs(links, n, 3);
    IndexByMode(links, n);
    TripleDigits(links, two, m);
  }

  lemma TripleDigits(links: nat, two: nat, m: nat)
    requires links > 0 && two == links * links && m < two * links
    ensures m / links / links % links == m / links / links
  {
    TopDigit(links, m, two);
    TopDigit(links, m / links, links);
  }

  lemma TwelveDirect()
    ensures DIRECT_LINKS == 12
  {
  }

  lemma SmallDigit(links: nat, m: nat)
    requires m < links
    ensures m % links == m
  {
  }

  lemma TopDigit(links: nat, m: nat, t: nat)
    requires links > 0 && m < t * links
    ensures m / links < t && (t == links ==> m / links % links == m / links)
  {
    assert m / links * links <= m;
    if m / links >= t { MulMono(t, m / links, links); }
    if t == links { SmallDigit(links, m / links); }
  }

  lemma ShiftNone(links: nat, m: nat)
    requires links > 0
    ensures Shift(links, m, 0) == m
  {
  }

  lemma ShiftOne(links: nat, m: nat, k: nat)
    requires links > 0
    ensures Shift(links, m, k + 1) == Shift(links, m, k) / links
  {
  }

  /** The digits put in their places make up the index vector. */
  lemma IndexDone(links: nat, n: nat, index: seq<nat>, m: nat)
    requires links > 0 && |index| == 4
    requires m == Shift(links, Rank(links, n), ModeOf(links, n))
    requires forall t | 0 <= t < 4 ::
      index[t] == if 0 < t <= ModeOf(links, n) then Shift(links, Rank(links, n), ModeOf(links, n) - t) % links else 0
    ensures index[0 := if ModeOf(links, n) == 0 then m else 11 + ModeOf(links, n)] == IndexOf(links, n)
  {
    hide ModeOf, Rank;
    ShiftNone(links, Rank(links, n));
    hide Shift;
  }

  lemma DropDigit(m: nat, links: nat)
    requires links > 0
    ensures m >= m % links && (m - m % links) / links == m / links
  {
    var q, r := m / links, m % links;
    assert m == q * links + r;
    DivUnique(q * links, links, q, 0);
  }

  /** Triple indirection covers every 32-bit offset, so the scan of limits stops at mode 3 at the latest. */
  lemma OffsetsReachable(blockSize: nat, offset: nat)
    requires blockSize == 1024 || blockSize == 2048
    requires offset < TWO32
    ensures offset / blockSize < Limit(blockSize / 4, 3)
  {
  }

  lemma RankBound(links: nat, n: nat)
    requires LinksOk(links) && n < Limit(links, 3)
    ensures Shift(links, Rank(links, n), ModeOf(links, n)) == 0 || ModeOf(links, n) == 0
  {
    LimitsAre(links);
    hide *;
    LinksPositive(links);
    var m, mode := Rank(links, n), ModeOf(links, n);
    ModeBounds(links, n);
    ShiftNone(links, m);
    ShiftOne(links, m, 0);
    ShiftOne(links, m, 1);
    ShiftOne(links, m, 2);
    if mode == 1 {
      Vanishes(links, m);
    } else if mode == 2 {
      TopDigit(links, m, links);
      Vanishes(links, m / links);
    } else if mode == 3 {
      var two := links * links;
      TopDigit(links, m, two);
      TopDigit(links, m / links, links);
      Vanishes(links, m / links / links);
    }
  }

  lemma Vanishes(links: nat, m: nat)
    requires m < links
    ensures m / links == 0
  {
  }

  /** The rank of a block in its mode is below the number of blocks the mode has. */
  lemma ModeBounds(links: nat, n: nat)
    requires n < Limit(links, 3)
    ensures ModeOf(links, n) <= 3
    ensures ModeOf(links, n) > 0 ==>
      Limit(links, ModeOf(links, n) - 1) <= n < Limit(links, ModeOf(links, n))
      && Rank(links, n) == n - Limit(links, ModeOf(links, n) - 1)
  {
    hide Limit;
  }

  lemma {:induction false} HornerShift(links: nat, index: seq<nat>, m: nat, mode: nat, k: nat)
    requires links > 0 && k <= mode < |index|
    requires Shift(links, m, mode) == 0
    requires forall t | 1 <= t <= mode :: index[t] == Shift(links, m, mode - t) % links
    ensures Horner(links, index, k) == Shift(links, m, mode - k)
  {
    if k > 0 {
      HornerShift(links, index, m, mode, k - 1);
      var x := Shift(links, m, mode - k);
      assert x == x / links * links + x % links;
    }
  }

  /** A vector that names a place: entries past the last level of its mode are 0. */
  ghost predicate IndexVector(links: nat, index: seq<nat>) {
    && |index| == 4
    && index[0] < 15
    && (forall t | 1 <= t < 4 :: index[t] < links)
    && (forall t | ModeOfIndex(index) < t < 4 :: index[t] == 0)
  }

  /** Every index is in range, the first one tells the mode, and putting the digits together gives the block number
      back. */
  lemma IndexInRange(links: nat, n: nat)
    requires LinksOk(links) && n < Limit(links, 3)
    ensures var index := IndexOf(links, n);
      && IndexVector(links, index)
      && ModeOfIndex(index) == ModeOf(links, n)
      && Reconstruct(links, index) == n
  {
    RankBound(links, n);
    var mode := ModeOf(links, n);
    if mode > 0 {
      HornerShift(links, IndexOf(links, n), Rank(links, n), mode, mode);
    }
  }

  /** Different blocks have different index vectors. */
  lemma IndexInjective(links: nat, n: nat, n': nat)
    requires LinksOk(links) && n < Limit(links, 3) && n' < Limit(links, 3)
    requires IndexOf(links, n) == IndexOf(links, n')
    ensures n == n'
  {
    IndexInRange(links, n);
    IndexInRange(links, n');
  }

  /** Every index vector is the vector of the block it puts together to. */
  lemma IndexOnto(links: nat, index: seq<nat>)
    requires LinksOk(links) && IndexVector(links, index)
    ensures Reconstruct(links, index) < Limit(links, 3)
    ensures IndexOf(links, Reconstruct(links, index)) == index
  {
    var mode := ModeOfIndex(index);
    var n := Reconstruct(links, index);
    if mode > 0 {
      ReconstructMode(links, index);
      forall t | 1 <= t <= mode
        ensures Shift(links, Rank(links, n), mode - t) % links == index[t]
      {
        DigitAt(links, index, mode, t);
      }
    }
  }

  lemma ReconstructMode(links: nat, index: seq<nat>)
    requires LinksOk(links) && IndexVector(links, index) && ModeOfIndex(index) > 0
    ensures var n := Reconstruct(links, index);
      && n < Limit(links, 3)
      && ModeOf(links, n) == ModeOfIndex(index)
      && Rank(links, n) == Horner(links, index, ModeOfIndex(index))
  {
    HornerBound(links, index, ModeOfIndex(index));
    if links == 256 {
    } else {
    }
  }

  lemma DigitAt(links: nat, index: seq<nat>, mode: nat, t: nat)
    requires LinksOk(links) && |index| == 4 && 1 <= t <= mode < 4
    requires forall t | 1 <= t < 4 :: index[t] < links
    ensures Shift(links, Horner(links, index, mode), mode - t) % links == index[t]
  {
    hide *;
    assert links > 0 by { LinksPositive(links); }
    ShiftHorner(links, index, mode, mode - t);
    HornerStep(links, index, t);
    DivUnique(Horner(links, index, t), links, Horner(links, index, t - 1), index[t]);
  }

  lemma LinksPositive(links: nat)
    requires LinksOk(links)
    ensures links > 0
  {
  }

  lemma HornerStep(links: nat, index: seq<nat>, k: nat)
    requires 0 < k < |index|
    ensures Horner(links, index, k) == Horner(links, index, k - 1) * links + index[k]
  {
  }

  lemma {:induction false} ShiftHorner(links: nat, index: seq<nat>, mode: nat, k: nat)
    requires links > 0 && |index| == 4 && k <= mode < 4
    requires forall t | 1 <= t < 4 :: index[t] < links
    ensures Shift(links, Horner(links, index, mode), k) == Horner(links, index, mode - k)
  {
    if k > 0 {
      ShiftHorner(links, index, mode, k - 1);
      DivUnique(Horner(links, index, mode - k + 1), links, Horner(links, index, mode - k), index[mode - k + 1]);
    }
  }

  lemma HornerBound(links: nat, index: seq<nat>, mode: nat)
    requires LinksOk(links) && |index| == 4 && 1 <= mode <= 3
    requires forall t | 1 <= t < 4 :: index[t] < links
    ensures Limit(links, mode - 1) + Horner(links, index, mode) < Limit(links, mode)
  {
    assert Horner(links, index, 1) == index[1];
    assert Horner(links, index, 2) == index[1] * links + index[2];
    assert Horner(links, index, 3) == (index[1] * links + index[2]) * links + index[3];
    if links == 256 {
    } else {
    }
  }
}
