/** Bitmaps and free counters of a numbered space that is cut into groups. Blocks and inodes are two such spaces. */
module Accounting {
  import opened Arithmetic
  import opened Bitmap

  /** Bits first..last of one group's bitmap; bit i stands for number base + i. */
  datatype Run = Run(first: int, last: int, base: nat)

  type Space = seq<Run>

  ghost predicate Cell(space: Space, g: nat, i: nat) {
    g < |space| && space[g].first <= i <= space[g].last
  }

  function Number(space: Space, g: nat, i: nat): nat {
    if g < |space| then space[g].base + i else 0
  }

  /** The bitmaps have room for every cell, and no number has two cells. */
  ghost predicate SpaceOk(space: Space, bytes: nat) {
    && (forall g: nat, i: nat | Cell(space, g, i) :: i < 8 * bytes)
    && (forall g: nat, i: nat, h: nat, j: nat | Cell(space, g, i) && Cell(space, h, j)
        && Number(space, g, i) == Number(space, h, j) ::
          g == h && i == j)
  }

  ghost predicate Numbered(space: Space, n: nat) {
    exists g: nat, i: nat :: Cell(space, g, i) && Number(space, g, i) == n
  }

  ghost predicate Free(space: Space, taken: set<nat>, g: nat, i: nat) {
    Cell(space, g, i) && Number(space, g, i) !in taken
  }

  /** The clear bits of group g. */
  ghost function FreeBits(space: Space, taken: set<nat>, g: nat): set<nat>
    requires g < |space|
  {
    set i: nat | i <= space[g].last && space[g].first <= i && Number(space, g, i) !in taken
  }

  /** The set bits are the numbers taken, and each group's counter is the number of its clear bits. Bits that stand
      for no number (metadata blocks, padding) are set where `padding` says so. */
  ghost predicate Accounted(space: Space, bytes: nat, bits: seq<Bits>, counts: seq<nat>, taken: set<nat>,
                            padding: set<(nat, nat)>) {
    && |bits| == |counts| == |space|
    && (forall g | 0 <= g < |bits| :: |bits[g]| == bytes)
    && (forall g: nat, i: nat | Cell(space, g, i) :: TestBit(bits[g], i) <==> Number(space, g, i) in taken)
    && (forall g: nat, i: nat | g < |bits| && i < 8 * bytes && !Cell(space, g, i) ::
        TestBit(bits[g], i) <==> (g, i) in padding)
    && (forall n | n in taken :: Numbered(space, n))
    && (forall g | 0 <= g < |space| :: counts[g] == |FreeBits(space, taken, g)|)
  }

  function Sum(counts: seq<nat>): nat {
    if counts == [] then 0 else counts[0] + Sum(counts[1..])
  }

  lemma {:induction false} SumUpdate(counts: seq<nat>, g: nat, c: nat)
    requires g < |counts|
    ensures Sum(counts[g := c]) == Sum(counts) - counts[g] + c
  {
    if g == 0 {
      assert counts[0 := c][1..] == counts[1..];
    } else {
      assert counts[g := c][1..] == counts[1..][g - 1 := c];
      SumUpdate(counts[1..], g - 1, c);
    }
  }

  lemma FreeBitsUpdate(space: Space, bytes: nat, taken: set<nat>, taken': set<nat>, g: nat, i: nat)
    requires SpaceOk(space, bytes) && Cell(space, g, i)
    requires taken - {Number(space, g, i)} == taken' - {Number(space, g, i)}
    ensures forall h | 0 <= h < |space| && h != g :: FreeBits(space, taken', h) == FreeBits(space, taken, h)
    ensures FreeBits(space, taken', g) - {i} == FreeBits(space, taken, g) - {i}
    ensures i in FreeBits(space, taken, g) <==> Number(space, g, i) !in taken
    ensures i in FreeBits(space, taken', g) <==> Number(space, g, i) !in taken'
  {
    var n := Number(space, g, i);
    forall h: nat, j: nat | Cell(space, h, j) && (h != g || j != i)
      ensures Number(space, h, j) in taken <==> Number(space, h, j) in taken'
    {
      assert Number(space, h, j) != n;
      assert Number(space, h, j) in taken - {n} <==> Number(space, h, j) in taken;
      assert Number(space, h, j) in taken' - {n} <==> Number(space, h, j) in taken';
    }
    forall h | 0 <= h < |space| && h != g
      ensures FreeBits(space, taken', h) == FreeBits(space, taken, h)
    {
      forall j: nat ensures j in FreeBits(space, taken', h) <==> j in FreeBits(space, taken, h) {
        if space[h].first <= j <= space[h].last { assert Cell(space, h, j); }
      }
    }
    forall j: nat ensures j in FreeBits(space, taken', g) - {i} <==> j in FreeBits(space, taken, g) - {i} {
      if j != i && space[g].first <= j <= space[g].last { assert Cell(space, g, j); }
    }
  }

  lemma CardinalityStep(a: set<nat>, b: set<nat>, i: nat)
    requires a - {i} == b - {i} && i in a && i !in b
    ensures |a| == |b| + 1
  {
    assert b == a - {i} by { assert b == b - {i}; }
  }

  lemma BitsUpdate(space: Space, bytes: nat, bits: seq<Bits>, bits': seq<Bits>, taken: set<nat>, taken': set<nat>,
                   g: nat, i: nat)
    requires SpaceOk(space, bytes) && Cell(space, g, i) && |bits| == |space| == |bits'|
    requires forall h: nat, j: nat | Cell(space, h, j) :: TestBit(bits[h], j) <==> Number(space, h, j) in taken
    requires forall h: nat, j: nat | Cell(space, h, j) && (h != g || j != i) ::
      TestBit(bits'[h], j) <==> TestBit(bits[h], j)
    requires TestBit(bits'[g], i) <==> Number(space, g, i) in taken'
    requires taken - {Number(space, g, i)} == taken' - {Number(space, g, i)}
    ensures forall h: nat, j: nat | Cell(space, h, j) :: TestBit(bits'[h], j) <==> Number(space, h, j) in taken'
  {
    var n := Number(space, g, i);
    forall h: nat, j: nat | Cell(space, h, j)
      ensures TestBit(bits'[h], j) <==> Number(space, h, j) in taken'
    {
      if h != g || j != i {
        assert Number(space, h, j) != n;
        assert Number(space, h, j) in taken - {n} <==> Number(space, h, j) in taken;
        assert Number(space, h, j) in taken' - {n} <==> Number(space, h, j) in taken';
      }
    }
  }

  /** Setting a clear bit and decrementing the group's counter takes exactly that number. */
  lemma Take(space: Space, bytes: nat, bits: seq<Bits>, counts: seq<nat>, taken: set<nat>, padding: set<(nat, nat)>,
             g: nat, i: nat)
    requires SpaceOk(space, bytes) && Accounted(space, bytes, bits, counts, taken, padding) && Free(space, taken, g, i)
    ensures i / 8 < |bits[g]| && counts[g] > 0 && BitAdded(bits[g], SetBit(bits[g], i), i)
    ensures Accounted(space, bytes, bits[g := SetBit(bits[g], i)], counts[g := counts[g] - 1],
                      taken + {Number(space, g, i)}, padding)
    ensures Sum(counts[g := counts[g] - 1]) + 1 == Sum(counts)
  {
    var n := Number(space, g, i);
    var taken' := taken + {n};
    var bits' := bits[g := SetBit(bits[g], i)];
    assert taken - {n} == taken' - {n};
    forall j: nat ensures TestBit(bits'[g], j) <==> i == j || TestBit(bits[g], j) { SetBitTest(bits[g], i, j); }
    SetBitAdds(bits[g], i);
    hide BitAdded;
    BitsUpdate(space, bytes, bits, bits', taken, taken', g, i);
    FreeBitsUpdate(space, bytes, taken, taken', g, i);
    CardinalityStep(FreeBits(space, taken, g), FreeBits(space, taken', g), i);
    SumUpdate(counts, g, counts[g] - 1);
  }

  /** Resetting a set bit and incrementing the group's counter gives back exactly that number. */
  lemma Give(space: Space, bytes: nat, bits: seq<Bits>, counts: seq<nat>, taken: set<nat>, padding: set<(nat, nat)>,
             g: nat, i: nat)
    requires SpaceOk(space, bytes) && Accounted(space, bytes, bits, counts, taken, padding)
    requires Cell(space, g, i) && Number(space, g, i) in taken
    ensures i / 8 < |bits[g]| && BitAdded(ResetBit(bits[g], i), bits[g], i)
    ensures Accounted(space, bytes, bits[g := ResetBit(bits[g], i)], counts[g := counts[g] + 1],
                      taken - {Number(space, g, i)}, padding)
    ensures Sum(counts[g := counts[g] + 1]) == Sum(counts) + 1
  {
    var n := Number(space, g, i);
    var taken' := taken - {n};
    var bits' := bits[g := ResetBit(bits[g], i)];
    assert taken - {n} == taken' - {n};
    forall j: nat ensures TestBit(bits'[g], j) <==> i != j && TestBit(bits[g], j) { ResetBitTest(bits[g], i, j); }
    ResetBitTakes(bits[g], i);
    hide BitAdded;
    BitsUpdate(space, bytes, bits, bits', taken, taken', g, i);
    FreeBitsUpdate(space, bytes, taken, taken', g, i);
    CardinalityStep(FreeBits(space, taken', g), FreeBits(space, taken, g), i);
    SumUpdate(counts, g, counts[g] + 1);
  }

  lemma {:induction false} SumPositive(counts: seq<nat>) returns (g: nat)
    requires Sum(counts) > 0
    ensures g < |counts| && counts[g] > 0
  {
    if counts[0] > 0 {
      g := 0;
    } else {
      g := SumPositive(counts[1..]);
      g := g + 1;
    }
  }

  /** While the counters do not add up to 0 there is a clear bit somewhere. */
  lemma SomeFree(space: Space, bytes: nat, bits: seq<Bits>, counts: seq<nat>, taken: set<nat>,
                 padding: set<(nat, nat)>) returns (g: nat, i: nat)
    requires Accounted(space, bytes, bits, counts, taken, padding) && Sum(counts) > 0
    ensures Free(space, taken, g, i)
  {
    g := SumPositive(counts);
    assert FreeBits(space, taken, g) != {};
    i :| i in FreeBits(space, taken, g);
  }

  /** The numbers of groups 0..k. */
  ghost function Numbers(space: Space, k: nat): set<nat>
    requires k <= |space|
  {
    set g: nat, i: nat | g < k && i <= space[g].last && space[g].first <= i :: Number(space, g, i)
  }

  lemma {:induction false} ImageSize(space: Space, g: nat, s: set<nat>, image: set<nat>)
    requires g < |space| && image == set i | i in s :: Number(space, g, i)
    ensures |image| == |s|
  {
    if s == {} {
    } else {
      var i :| i in s;
      var rest := set j | j in s - {i} :: Number(space, g, j);
      ImageSize(space, g, s - {i}, rest);
      forall j | j in s && j != i ensures Number(space, g, j) in rest { assert j in s - {i}; }
      assert image == rest + {Number(space, g, i)};
      assert Number(space, g, i) !in rest;
    }
  }

  lemma {:induction false} SumPrefix(counts: seq<nat>, k: nat)
    requires k < |counts|
    ensures Sum(counts[..k + 1]) == Sum(counts[..k]) + counts[k]
  {
    if k == 0 {
      assert counts[..1] == [counts[0]] && counts[..0] == [];
      assert [counts[0]][1..] == [];
    } else {
      assert counts[..k + 1][1..] == counts[1..][..k] && counts[..k][1..] == counts[1..][..k - 1];
      SumPrefix(counts[1..], k - 1);
    }
  }

  lemma {:induction false} FreeNumbers(space: Space, bytes: nat, bits: seq<Bits>, counts: seq<nat>, taken: set<nat>,
                                       padding: set<(nat, nat)>, k: nat)
    requires SpaceOk(space, bytes) && Accounted(space, bytes, bits, counts, taken, padding) && k <= |space|
    ensures |Numbers(space, k) - taken| == Sum(counts[..k])
  {
    if k == 0 {
      assert counts[..0] == [];
      assert Numbers(space, 0) - taken == {};
    } else {
      var g := k - 1;
      FreeNumbers(space, bytes, bits, counts, taken, padding, g);
      SumPrefix(counts, g);
      var image := set i | i in FreeBits(space, taken, g) :: Number(space, g, i);
      ImageSize(space, g, FreeBits(space, taken, g), image);
      var before := Numbers(space, g) - taken;
      LastGroup(space, bytes, taken, g, image);
      assert Numbers(space, k) - taken == before + image;
      assert before !! image;
    }
  }

  lemma LastGroup(space: Space, bytes: nat, taken: set<nat>, g: nat, image: set<nat>)
    requires SpaceOk(space, bytes) && g < |space|
    requires image == set i | i in FreeBits(space, taken, g) :: Number(space, g, i)
    ensures Numbers(space, g + 1) - taken == (Numbers(space, g) - taken) + image
    ensures (Numbers(space, g) - taken) !! image
  {
    forall n | n in Numbers(space, g + 1) - taken
      ensures n in (Numbers(space, g) - taken) + image
    {
      var h: nat, i: nat :| h < g + 1 && i <= space[h].last && space[h].first <= i && Number(space, h, i) == n;
      if h == g {
        assert i in FreeBits(space, taken, g);
      } else {
        assert n in Numbers(space, g);
      }
    }
    forall n | n in Numbers(space, g) && n in image
      ensures false
    {
      var h: nat, i: nat :| h < g && i <= space[h].last && space[h].first <= i && Number(space, h, i) == n;
      var j :| j in FreeBits(space, taken, g) && Number(space, g, j) == n;
      assert Cell(space, h, i) && Cell(space, g, j);
    }
  }

  /** The group counters add up to the number of numbers not taken. */
  lemma CountersAreClearBits(space: Space, bytes: nat, bits: seq<Bits>, counts: seq<nat>, taken: set<nat>,
                             padding: set<(nat, nat)>)
    requires SpaceOk(space, bytes) && Accounted(space, bytes, bits, counts, taken, padding)
    ensures Sum(counts) == |Numbers(space, |space|) - taken|
    ensures taken <= Numbers(space, |space|)
  {
    FreeNumbers(space, bytes, bits, counts, taken, padding, |space|);
    assert counts[..|space|] == counts;
    forall n | n in taken ensures n in Numbers(space, |space|) {
      var g: nat, i: nat :| Cell(space, g, i) && Number(space, g, i) == n;
    }
  }

  lemma SameByte(x: bv8, y: bv8)
    requires forall k: nat | k < 8 :: x & Mask(k) != 0 <==> y & Mask(k) != 0
    ensures x == y
  {
    assert Mask(0) == 1 && Mask(1) == 2 && Mask(2) == 4 && Mask(3) == 8;
    assert Mask(4) == 16 && Mask(5) == 32 && Mask(6) == 64 && Mask(7) == 128;
    assert x & 1 == y & 1;
    assert x & 2 == y & 2;
    assert x & 4 == y & 4;
    assert x & 8 == y & 8;
    assert x & 16 == y & 16;
    assert x & 32 == y & 32;
    assert x & 64 == y & 64;
    assert x & 128 == y & 128;
  }

  /** The numbers taken determine the bitmaps byte for byte, and the counters. */
  lemma AllocationDetermined(space: Space, bytes: nat, taken: set<nat>, padding: set<(nat, nat)>,
                             bits: seq<Bits>, counts: seq<nat>, bits': seq<Bits>, counts': seq<nat>)
    requires Accounted(space, bytes, bits, counts, taken, padding)
    requires Accounted(space, bytes, bits', counts', taken, padding)
    ensures bits == bits' && counts == counts'
  {
    forall g, j | 0 <= g < |bits| && 0 <= j < bytes
      ensures bits[g][j] == bits'[g][j]
    {
      forall k: nat | k < 8
        ensures bits[g][j] & Mask(k) != 0 <==> bits'[g][j] & Mask(k) != 0
      {
        var i := 8 * j + k;
        assert i / 8 == j && i % 8 == k;
        assert TestBit(bits[g], i) <==> TestBit(bits'[g], i) by {
          if Cell(space, g, i) { } else { }
        }
      }
      SameByte(bits[g][j], bits'[g][j]);
    }
    forall g | 0 <= g < |bits| ensures bits[g] == bits'[g] { }
  }

  /** When more numbers are taken, the bits of the new ones are set and no other bit has changed. */
  lemma MarksGrow(space: Space, bytes: nat, taken: set<nat>, taken': set<nat>, padding: set<(nat, nat)>,
                  bits: seq<Bits>, counts: seq<nat>, bits': seq<Bits>, counts': seq<nat>)
    requires Accounted(space, bytes, bits, counts, taken, padding)
      && Accounted(space, bytes, bits', counts', taken', padding)
    requires taken <= taken'
    ensures |bits'| == |bits|
    ensures forall g: nat, i: nat | g < |bits| && i < 8 * bytes ::
      TestBit(bits'[g], i) <==> TestBit(bits[g], i) || (Cell(space, g, i) && Number(space, g, i) in taken' - taken)
  {
    forall g: nat, i: nat | g < |bits| && i < 8 * bytes
      ensures TestBit(bits'[g], i)
        <==> TestBit(bits[g], i) || (Cell(space, g, i) && Number(space, g, i) in taken' - taken)
    {
      if Cell(space, g, i) { } else { }
    }
  }

  /** How many groups a cyclic scan from `goal` looks at before it comes to g. */
  function Rank(goal: nat, groups: nat, g: nat): int {
    if g >= goal then g - goal else g + groups - goal
  }

  /** Group h comes before g when groups are taken upwards from `goal`, with wrap-around behind the last one. */
  predicate Before(goal: nat, g: nat, h: nat) {
    if goal <= g then goal <= h < g else goal <= h || h < g
  }

  /** Cell (g, i) is the first free one when groups are taken in this order and the bits of a group upwards. */
  ghost predicate FirstFree(space: Space, taken: set<nat>, goal: nat, g: nat, i: nat) {
    && Free(space, taken, g, i)
    && forall h: nat, j: nat | Free(space, taken, h, j) :: !Before(goal, g, h) && (h == g ==> i <= j)
  }

  /** The group that is met after k steps from `goal`. */
  function Met(groups: nat, goal: nat, k: nat): nat
    requires groups > 0
  {
    (goal + k) % groups
  }

  ghost predicate NoneFree(space: Space, taken: set<nat>, g: nat) {
    forall j: nat :: !Free(space, taken, g, j)
  }

  ghost predicate MetFirst(space: Space, taken: set<nat>, goal: nat, k: nat, g: nat)
    requires |space| > 0
  {
    g == Met(|space|, goal, k) && forall m: nat | m < k :: NoneFree(space, taken, Met(|space|, goal, m))
  }

  /** The same, step by step: the group is met after some number of steps from `goal`, none met before has a free cell,
      and no lower bit of it is free. */
  lemma ScanOrder(space: Space, taken: set<nat>, goal: nat, g: nat, i: nat)
    requires goal < |space| && g < |space|
    ensures FirstFree(space, taken, goal, g, i) <==>
      && Free(space, taken, g, i) && (forall j: nat | j < i :: !Free(space, taken, g, j))
      && exists k: nat :: k < |space| && MetFirst(space, taken, goal, k, g)
  {
    hide Free, Met, NoneFree, Before, Rank;
    StepsAre(|space|, goal, g);
    if FirstFree(space, taken, goal, g, i) {
      ScanForth(space, taken, goal, g, i);
      assert MetFirst(space, taken, goal, Rank(goal, |space|, g), g);
    }
    forall k: nat | Free(space, taken, g, i) && (forall j: nat | j < i :: !Free(space, taken, g, j))
        && k < |space| && MetFirst(space, taken, goal, k, g)
      ensures FirstFree(space, taken, goal, g, i)
    {
      ScanBack(space, taken, goal, g, i, k);
    }
  }

  lemma ScanForth(space: Space, taken: set<nat>, goal: nat, g: nat, i: nat)
    requires goal < |space| && g < |space| && FirstFree(space, taken, goal, g, i)
    ensures Free(space, taken, g, i) && forall j: nat | j < i :: !Free(space, taken, g, j)
    ensures var k := Rank(goal, |space|, g);
      && 0 <= k < |space| && g == Met(|space|, goal, k)
      && forall m: nat | m < k :: NoneFree(space, taken, Met(|space|, goal, m))
  {
    hide Free, Met, Before, Rank;
    StepsAre(|space|, goal, g);
    forall m: nat | m < Rank(goal, |space|, g)
      ensures NoneFree(space, taken, Met(|space|, goal, m))
    {
      StepBefore(|space|, goal, g, m);
    }
  }

  lemma ScanBack(space: Space, taken: set<nat>, goal: nat, g: nat, i: nat, k: nat)
    requires goal < |space| && g < |space| && k < |space| && g == Met(|space|, goal, k)
    requires Free(space, taken, g, i) && forall j: nat | j < i :: !Free(space, taken, g, j)
    requires forall m: nat | m < k :: NoneFree(space, taken, Met(|space|, goal, m))
    ensures FirstFree(space, taken, goal, g, i)
  {
    hide Met, Before, Rank, Number;
    StepsAre(|space|, goal, g);
    OneStep(|space|, goal, g, k, Rank(goal, |space|, g));
    forall h: nat, j: nat | Free(space, taken, h, j)
      ensures !Before(goal, g, h) && (h == g ==> i <= j)
    {
      if Before(goal, g, h) { PassedClear(space, taken, goal, g, k, h); }
    }
  }

  lemma PassedClear(space: Space, taken: set<nat>, goal: nat, g: nat, k: nat, h: nat)
    requires goal < |space| && g < |space| && h < |space| && k == Rank(goal, |space|, g) && Before(goal, g, h)
    requires forall m: nat | m < k :: NoneFree(space, taken, Met(|space|, goal, m))
    ensures NoneFree(space, taken, h)
  {
    hide Met, Before, Rank, NoneFree;
    BeforeStep(|space|, goal, g, h);
    assert NoneFree(space, taken, Met(|space|, goal, Rank(goal, |space|, h)));
  }

  lemma Around(n: nat, x: nat)
    requires 0 < n && x < 2 * n
    ensures x % n == if x < n then x else x - n
  {
    if x >= n { DivUnique(x, n, 1, x - n); } else { DivUnique(x, n, 0, x); }
  }

  lemma StepsAre(n: nat, goal: nat, g: nat)
    requires goal < n && g < n
    ensures 0 <= Rank(goal, n, g) < n && g == Met(n, goal, Rank(goal, n, g))
  {
    Around(n, goal + Rank(goal, n, g));
  }

  lemma OneStep(n: nat, goal: nat, g: nat, k: nat, k': nat)
    requires goal < n && k < n && k' < n && g == Met(n, goal, k) == Met(n, goal, k')
    ensures k == k'
  {
    Around(n, goal + k);
    Around(n, goal + k');
  }

  lemma StepBefore(n: nat, goal: nat, g: nat, m: nat)
    requires goal < n && g < n && m < Rank(goal, n, g)
    ensures n > 0 && Before(goal, g, Met(n, goal, m))
  {
    Around(n, goal + m);
  }

  lemma BeforeStep(n: nat, goal: nat, g: nat, h: nat)
    requires goal < n && g < n && h < n && Before(goal, g, h)
    ensures 0 <= Rank(goal, n, h) < Rank(goal, n, g) && h == Met(n, goal, Rank(goal, n, h))
  {
    StepsAre(n, goal, h);
  }

  ghost predicate AnyFree(space: Space, taken: set<nat>) {
    exists g: nat, i: nat :: Free(space, taken, g, i)
  }

  /** There is a clear bit exactly while the counters do not add up to 0. */
  lemma CountersTell(space: Space, bytes: nat, bits: seq<Bits>, counts: seq<nat>, taken: set<nat>,
                     padding: set<(nat, nat)>)
    requires SpaceOk(space, bytes) && Accounted(space, bytes, bits, counts, taken, padding)
    ensures AnyFree(space, taken) <==> Sum(counts) > 0
  {
    if AnyFree(space, taken) {
      var g: nat, i: nat :| Free(space, taken, g, i);
      Take(space, bytes, bits, counts, taken, padding, g, i);
    } else if Sum(counts) > 0 {
      var g, i := SomeFree(space, bytes, bits, counts, taken, padding);
    }
  }

  /** The scan of allocate_block and allocate_new_inode: group by group from `goal` on, with wrap-around. */
  method FindFree(space: Space, bits: seq<Bits>, goal: nat, ghost taken: set<nat>)
    returns (ok: bool, g: nat, bit: nat)
    requires |bits| == |space| && goal < |space|
    requires forall h | 0 <= h < |space| :: space[h].first >= 0
    requires forall h: nat, j: nat | Cell(space, h, j) :: TestBit(bits[h], j) <==> Number(space, h, j) in taken
    ensures ok <==> AnyFree(space, taken)
    ensures ok ==> FirstFree(space, taken, goal, g, bit)
  {
    g, ok, bit := goal, false, 0;
    ghost var seen := 0;
    var again := true;
    while again
      invariant !ok && 0 <= g < |space| && 0 <= seen <= |space|
      invariant again ==> Rank(goal, |space|, g) == seen < |space|
      invariant !again ==> seen == |space|
      invariant forall h: nat, j: nat | Free(space, taken, h, j) :: Rank(goal, |space|, h) >= seen
      decreases again, |space| - seen
    {
      ok, bit := FindClearBit(bits[g], space[g].first, space[g].last);
      assert forall j: nat | space[g].first <= j <= space[g].last :: Cell(space, g, j);
      if ok {
        assert Free(space, taken, g, bit);
        return;
      }
      forall h: nat, j: nat | Free(space, taken, h, j)
        ensures Rank(goal, |space|, h) >= seen + 1
      {
        assert h != g;
      }
      seen := seen + 1;
      g := g + 1;
      if g == |space| {
        g := 0;
      }
      again := g != goal;
    }
  }
}
